// Which step moves a job, when it may start, and whose queue it waits in, over
// every run of the job protocol, in terms of the columns of the rows.
module JobRuns {
  import opened Base
  import opened Jobs
  import opened JobProtocol

  // ---- which step writes what

  /**
   * What a step makes of the row `a` of job `id`. Cancels reach only pending jobs
   * of the caller's owner, a worker marks the job in its hands, and a commit claims
   * or retires pending jobs of the dispatcher's owner; nothing else touches a row.
   */
  predicate Writes(s: State, step: Step, id: nat, a: Job, b: Job) {
    match step
    case CancelOne(x, who, now) =>
      b == if id == x && a.owner == who && a.status == Pending
           then a.(status := Canceled, finishedAt := Some(now)) else a
    case CancelMany(workflows, who, now) =>
      b == if a.workflow in workflows && a.owner == who && a.status == Pending
           then a.(status := Canceled, finishedAt := Some(now)) else a
    case HandledWell(w, run, now) =>
      w in s.workers &&
      b == if s.workers[w].hands != Some(id) then a
           else a.(status := Succeeded, finishedAt := Some(now), run := if run == None then a.run else run)
    case HandledBadly(w, reason, run, now) =>
      w in s.workers &&
      b == if s.workers[w].hands != Some(id) then a
           else a.(status := Failed, reason := Some(reason), finishedAt := Some(now),
                   run := if run == None then a.run else run)
    case Commit(t) =>
      || b == a
      || (&& a.status == Pending && a.owner == s.owner && b.startedAt.Some?
          && b == a.(status := Running, startedAt := b.startedAt))
      || (&& a.status == Pending && a.owner == s.owner && b.finishedAt.Some?
          && b == a.(status := Skipped, reason := Some("missed_window"), finishedAt := b.finishedAt))
    case _ => b == a
  }

  lemma WhatStepsWrite(states: seq<State>, steps: seq<Step>, i: nat, id: nat)
    requires IsRun(states, steps) && i < |steps| && id in states[i].rows
    ensures id in states[i + 1].rows
    ensures Writes(states[i], steps[i], id, states[i].rows[id], states[i + 1].rows[id])
  {
    RunKeepsInv(states, steps, i);
    StepWrites(states[i], steps[i], id);
  }

  lemma StepWrites(s: State, step: Step, id: nat)
    requires Inv(s) && Enabled(s, step) && id in s.rows
    ensures id in Apply(s, step).rows && Writes(s, step, id, s.rows[id], Apply(s, step).rows[id])
  {
    match step {
      case Commit(t) => CommitWrites(s, t, id);
      case CancelOne(_, _, _) => CancelsWrite(s, step, id);
      case CancelMany(_, _, _) => CancelsWrite(s, step, id);
      case HandledWell(w, _, _) => MarksWrite(s, step, w, id);
      case HandledBadly(w, _, _, _) => MarksWrite(s, step, w, id);
      case _ =>
    }
  }

  lemma CancelsWrite(s: State, step: Step, id: nat)
    requires Enabled(s, step) && (step.CancelOne? || step.CancelMany?) && id in s.rows
    ensures id in Apply(s, step).rows && Writes(s, step, id, s.rows[id], Apply(s, step).rows[id])
  {
  }

  lemma MarksWrite(s: State, step: Step, w: nat, id: nat)
    requires RowsOk(s) && Conserved(s) && Enabled(s, step) && id in s.rows
    requires (step.HandledWell? || step.HandledBadly?) && step.w == w
    ensures id in Apply(s, step).rows && Writes(s, step, id, s.rows[id], Apply(s, step).rows[id])
  {
    HandsAreRunning(s, w);
  }

  lemma CommitWrites(s: State, t: nat, id: nat)
    requires RowsOk(s) && TicksOk(s) && Enabled(s, Commit(t)) && id in s.rows
    ensures var s' := Apply(s, Commit(t)); id in s'.rows && Writes(s, Commit(t), id, s.rows[id], s'.rows[id])
  {
    assert TickOk(s, t) && WellStamped(s.rows[id]);
    if id in s.ticks[t].staged {
      assert StagedOk(s, s.ticks[t].staged, id);
    }
  }

  /** A row is new by an immediate dispatch, a creation, or a commit of the dispatcher's owner. */
  lemma WhatStepsInsert(states: seq<State>, steps: seq<Step>, i: nat, id: nat)
    requires IsRun(states, steps) && i < |steps| && id in states[i + 1].rows && id !in states[i].rows
    ensures var job := states[i + 1].rows[id];
            match steps[i]
            case Immediate(t, x, workflow, account, now) =>
              x == id && job == Job(states[i].owner, workflow, account, now, Running, Some(now), None, None, None, None)
            case Create(x, created) => x == id && job == created
            case Commit(t) => job.owner == states[i].owner && (job.status == Pending || job.status == Running
                                                               || job.status == Skipped)
            case _ => false
  {
    RunKeepsInv(states, steps, i);
    if steps[i].Commit? {
      assert TickOk(states[i], steps[i].t);
      assert StagedOk(states[i], states[i].ticks[steps[i].t].staged, id);
    }
  }

  // ---- what a tick retires and claims, and when

  /** Retiring leaves no too-old job of the owner pending in what the tick sees. */
  lemma SkipRetiresAll(s: State, t: nat, now: Time, cutoff: Time, id: nat)
    requires Enabled(s, SkipOld(t, now, cutoff)) && id in Visible(s, t)
    ensures var a, s' := Visible(s, t)[id], Apply(s, SkipOld(t, now, cutoff));
            && id in Visible(s', t)
            && Visible(s', t)[id] ==
                 if a.owner == s.owner && a.status == Pending && a.fireAt < cutoff
                 then a.(status := Skipped, reason := Some("missed_window"), finishedAt := Some(now)) else a
  {
  }

  /**
   * A selection is of due jobs of the owner, passes one over only for a full list of
   * jobs that fire no later, and is what the tick then claims; an empty one it
   * commits as it is.
   */
  lemma SelectTakesTheDue(s: State, t: nat, limit: nat, candidates: seq<nat>, id: nat)
    requires Enabled(s, Select(t, limit, candidates)) && id in Visible(s, t)
    ensures var job, rows, SkipDone(now, cutoff) := Visible(s, t)[id], Visible(s, t), s.ticks[t].phase;
            && (id in candidates ==>
                  job.owner == s.owner && job.status == Pending && cutoff <= job.fireAt <= now)
            && (id !in candidates && job.owner == s.owner && job.status == Pending && cutoff <= job.fireAt <= now ==>
                  && |candidates| == limit
                  && forall x :: x in candidates ==> x in rows && rows[x].fireAt <= job.fireAt)
    ensures var s' := Apply(s, Select(t, limit, candidates));
            && s'.rows == s.rows && s'.ticks[t].staged == s.ticks[t].staged
            && s'.ticks[t].phase == if candidates == [] then ClaimDone([])
                                    else Selected(s.ticks[t].phase.now, candidates)
  {
    var SkipDone(now, cutoff) := s.ticks[t].phase;
    CandidatesAreDue(Visible(s, t), s.owner, now, cutoff, limit, candidates);
    var job := Visible(s, t)[id];
    if id !in candidates && job.owner == s.owner && job.status == Pending && cutoff <= job.fireAt <= now {
      LeftOut(Visible(s, t), s.owner, now, cutoff, limit, candidates, id);
    }
  }

  /** Claiming flips every candidate that is still pending in what the tick sees, and nothing else. */
  lemma ClaimFlipsAll(s: State, t: nat, claimed: seq<nat>, id: nat)
    requires Enabled(s, ClaimSelected(t, claimed)) && id in Visible(s, t)
    ensures var a, s' := Visible(s, t)[id], Apply(s, ClaimSelected(t, claimed));
            && id in Visible(s', t)
            && (id in claimed <==> id in s.ticks[t].phase.candidates && a.status == Pending)
            && Visible(s', t)[id] ==
                 if id in claimed then a.(status := Running, startedAt := Some(s.ticks[t].phase.now)) else a
  {
  }

  /** A candidate list holds only what is due between `cutoff` and `now`. */
  predicate DueWithin(rows: Rows, ids: seq<nat>, now: Time, cutoff: Time) {
    forall id :: id in ids && id in rows ==> cutoff <= rows[id].fireAt <= now
  }

  predicate StampedBy(j: Job, now: Time, cutoff: Time) {
    && (j.status == Skipped ==> j.finishedAt == Some(now) && j.fireAt < cutoff)
    && (j.status == Running ==> j.startedAt == Some(now) && cutoff <= j.fireAt <= now)
  }

  /** Everything the tick has staged so far it has staged by this clock and this cutoff. */
  ghost predicate WorksBy(s: State, t: nat, now: Time, cutoff: Time) {
    t in s.ticks &&
    var Tick(_, phase, staged) := s.ticks[t];
    && (forall id :: id in staged ==> StampedBy(staged[id], now, cutoff))
    && (match phase
        case SkipDone(n, c) => n == now && c == cutoff
        case Selected(n, candidates) =>
          n == now && DueWithin(s.rows, candidates, now, cutoff) && DueWithin(staged, candidates, now, cutoff)
        case ClaimDone(_) => true
        case _ => false)
  }

  /** Before it retires anything a tick has staged only pending jobs. */
  ghost predicate BegunOk(s: State, t: nat) {
    t in s.ticks && s.ticks[t].phase == Begun ==>
      forall id :: id in s.ticks[t].staged ==> s.ticks[t].staged[id].status == Pending
  }

  lemma BegunPreserved(s: State, step: Step, t: nat)
    requires (t in s.ticks ==> TickOk(s, t)) && Enabled(s, step) && BegunOk(s, t)
    ensures BegunOk(Apply(s, step), t)
  {
  }

  lemma {:induction false} RunKeepsBegun(states: seq<State>, steps: seq<Step>, i: nat, t: nat)
    requires IsRun(states, steps) && i < |states|
    ensures BegunOk(states[i], t)
  {
    if i > 0 {
      RunKeepsBegun(states, steps, i - 1, t);
      RunKeepsInv(states, steps, i - 1);
      BegunPreserved(states[i - 1], steps[i - 1], t);
    }
  }

  lemma SkipStamps(s: State, t: nat, now: Time, cutoff: Time)
    requires Enabled(s, SkipOld(t, now, cutoff)) && BegunOk(s, t)
    ensures WorksBy(Apply(s, SkipOld(t, now, cutoff)), t, now, cutoff)
  {
  }

  lemma SelectIsWithin(s: State, t: nat, limit: nat, candidates: seq<nat>, now: Time, cutoff: Time)
    requires TicksOk(s) && Enabled(s, Select(t, limit, candidates)) && WorksBy(s, t, now, cutoff)
    ensures WorksBy(Apply(s, Select(t, limit, candidates)), t, now, cutoff)
  {
    var Tick(_, phase, staged) := s.ticks[t];
    CandidatesAreDue(Visible(s, t), s.owner, now, cutoff, limit, candidates);
    assert TickOk(s, t);
    assert forall id :: id in staged ==> StagedOk(s, staged, id);
  }

  lemma ClaimStamps(s: State, t: nat, claimed: seq<nat>, now: Time, cutoff: Time)
    requires Enabled(s, ClaimSelected(t, claimed)) && WorksBy(s, t, now, cutoff)
    ensures WorksBy(Apply(s, ClaimSelected(t, claimed)), t, now, cutoff)
  {
  }

  /** Steps of others keep the identity of rows, and so what a tick works by. */
  lemma OthersKeepWork(s: State, step: Step, t: nat, now: Time, cutoff: Time)
    requires Inv(s) && Enabled(s, step) && WorksBy(s, t, now, cutoff) && !Concerns(step, t)
    ensures WorksBy(Apply(s, step), t, now, cutoff)
  {
    AllRowsMove(s, step);
    assert TickOk(s, t);
    if step.Commit? {
      assert s.ticks[step.t].staged.Keys !! s.ticks[t].staged.Keys;
    }
    WorkStays(s, Apply(s, step), t, now, cutoff);
  }

  lemma WorkStays(s: State, s': State, t: nat, now: Time, cutoff: Time)
    requires t in s.ticks && TickOk(s, t) && WorksBy(s, t, now, cutoff) && t in s'.ticks && s'.ticks[t] == s.ticks[t]
    requires forall id :: RowMoves(s, s', id)
    requires forall id :: id in s'.rows && id !in s.rows ==> id !in s.ticks[t].staged
    ensures WorksBy(s', t, now, cutoff)
  {
    var Tick(_, phase, staged) := s.ticks[t];
    if phase.Selected? {
      forall id | id in phase.candidates && id in s'.rows ensures cutoff <= s'.rows[id].fireAt <= now {
        assert CandidateOk(s, staged, id) && RowMoves(s, s', id);
      }
    }
  }

  lemma WorkGoesOn(s: State, step: Step, t: nat, now: Time, cutoff: Time)
    requires Inv(s) && Enabled(s, step) && WorksBy(s, t, now, cutoff)
    requires !Concerns(step, t) || step.Select? || step.ClaimSelected?
    ensures WorksBy(Apply(s, step), t, now, cutoff)
  {
    if !Concerns(step, t) {
      OthersKeepWork(s, step, t, now, cutoff);
    } else if step.Select? {
      SelectIsWithin(s, t, step.limit, step.candidates, now, cutoff);
    } else {
      ClaimStamps(s, t, step.claimed, now, cutoff);
    }
  }

  /** Between retiring and commit. */
  predicate Midway(s: State, t: nat) {
    t in s.ticks && (s.ticks[t].phase.SkipDone? || s.ticks[t].phase.Selected? || s.ticks[t].phase.ClaimDone?)
  }

  lemma MidwayBefore(s: State, step: Step, t: nat)
    requires Enabled(s, step) && Midway(Apply(s, step), t) && !(step.SkipOld? && step.t == t)
    ensures Midway(s, t) && (!Concerns(step, t) || step.Select? || step.ClaimSelected?)
  {
  }

  lemma SkipInRun(states: seq<State>, steps: seq<Step>, i: nat, t: nat)
    requires IsRun(states, steps) && i < |steps| && steps[i].SkipOld? && steps[i].t == t
    ensures WorksBy(states[i + 1], t, steps[i].now, steps[i].cutoff)
  {
    RunKeepsBegun(states, steps, i, t);
    SkipStamps(states[i], t, steps[i].now, steps[i].cutoff);
  }

  lemma WorkInRun(states: seq<State>, steps: seq<Step>, i: nat, t: nat, now: Time, cutoff: Time)
    requires IsRun(states, steps) && i < |steps| && WorksBy(states[i], t, now, cutoff)
    requires !Concerns(steps[i], t) || steps[i].Select? || steps[i].ClaimSelected?
    ensures WorksBy(states[i + 1], t, now, cutoff)
  {
    RunKeepsInv(states, steps, i);
    WorkGoesOn(states[i], steps[i], t, now, cutoff);
  }

  lemma MidwayInRun(states: seq<State>, steps: seq<Step>, i: nat, t: nat)
    requires IsRun(states, steps) && i < |states| && Midway(states[i], t)
    ensures i > 0
    ensures !(steps[i - 1].SkipOld? && steps[i - 1].t == t) ==>
              && Midway(states[i - 1], t)
              && (!Concerns(steps[i - 1], t) || steps[i - 1].Select? || steps[i - 1].ClaimSelected?)
  {
    assert i > 0;
    if !(steps[i - 1].SkipOld? && steps[i - 1].t == t) {
      MidwayBefore(states[i - 1], steps[i - 1], t);
    }
  }

  predicate RetiresAt(steps: seq<Step>, k: nat, t: nat) {
    k < |steps| && steps[k].SkipOld? && steps[k].t == t
  }

  ghost predicate WorksByStep(s: State, steps: seq<Step>, j: nat, t: nat) {
    RetiresAt(steps, j, t) && WorksBy(s, t, steps[j].now, steps[j].cutoff)
  }

  /** One step on: the retiring step itself, or one more step by the same clock and cutoff. */
  lemma WorkStep(states: seq<State>, steps: seq<Step>, i: nat, t: nat)
    requires IsRun(states, steps) && i < |steps| && Midway(states[i + 1], t)
    ensures RetiresAt(steps, i, t) ==> WorksByStep(states[i + 1], steps, i, t)
    ensures !RetiresAt(steps, i, t) ==> Midway(states[i], t)
    ensures forall j: nat :: !RetiresAt(steps, i, t) && WorksByStep(states[i], steps, j, t) ==>
              WorksByStep(states[i + 1], steps, j, t)
  {
    MidwayInRun(states, steps, i + 1, t);
    if RetiresAt(steps, i, t) {
      SkipInRun(states, steps, i, t);
    } else {
      forall j: nat | WorksByStep(states[i], steps, j, t) ensures WorksByStep(states[i + 1], steps, j, t) {
        WorkInRun(states, steps, i, t, steps[j].now, steps[j].cutoff);
      }
    }
  }

  /** A tick in the middle of its transaction works by the clock and cutoff of its last retiring step. */
  lemma {:induction false} WorksBySkip(states: seq<State>, steps: seq<Step>, i: nat, t: nat) returns (j: nat)
    requires IsRun(states, steps) && i < |states| && Midway(states[i], t)
    ensures j < i && WorksByStep(states[i], steps, j, t)
    ensures forall k :: j < k < i ==> !RetiresAt(steps, k, t)
  {
    assert i > 0;
    WorkStep(states, steps, i - 1, t);
    if RetiresAt(steps, i - 1, t) {
      j := i - 1;
    } else {
      j := WorksBySkip(states, steps, i - 1, t);
    }
  }

  /**
   * What a commit does to a stored job, in terms of the retiring step of its tick:
   * it starts, stamped with that clock, only if due between the cutoff and the
   * clock, and is retired, stamped with that clock, only if older than the cutoff.
   */
  lemma CommitsByTheClock(states: seq<State>, steps: seq<Step>, i: nat, id: nat) returns (j: nat)
    requires IsRun(states, steps) && i < |steps| && steps[i].Commit? && id in states[i].rows
    ensures j < i && RetiresAt(steps, j, steps[i].t)
    ensures forall k :: j < k < i ==> !RetiresAt(steps, k, steps[i].t)
    ensures id in states[i + 1].rows
    ensures var a, b, now, cutoff := states[i].rows[id], states[i + 1].rows[id], steps[j].now, steps[j].cutoff;
            && (b.status == Running && a != b ==> b.startedAt == Some(now) && cutoff <= a.fireAt <= now)
            && (b.status == Skipped && a != b ==> b.finishedAt == Some(now) && a.fireAt < cutoff)
  {
    var t := steps[i].t;
    assert Enabled(states[i], steps[i]) && states[i + 1] == Apply(states[i], steps[i]);
    j := WorksBySkip(states, steps, i, t);
    RunKeepsInv(states, steps, i);
    RowsMove(states[i], steps[i], id);
    if id in states[i].ticks[t].staged {
      assert StampedBy(states[i].ticks[t].staged[id], steps[j].now, steps[j].cutoff);
    }
  }

  // ---- nothing starts early

  /** It started, if at all, at or after its fire time. */
  predicate Punctual(j: Job) {
    j.startedAt.Some? ==> j.fireAt <= j.startedAt.value
  }

  predicate AllPunctual(rows: Rows) {
    forall id :: id in rows ==> Punctual(rows[id])
  }

  predicate DueBy(rows: Rows, ids: seq<nat>, now: Time) {
    forall id :: id in ids && id in rows ==> rows[id].fireAt <= now
  }

  /** What the tick has staged has started on time, and what it has selected has come due. */
  predicate TickPunctual(s: State, t: nat)
    requires t in s.ticks
  {
    var Tick(_, phase, staged) := s.ticks[t];
    && AllPunctual(staged)
    && (phase.Selected? ==> DueBy(s.rows, phase.candidates, phase.now) && DueBy(staged, phase.candidates, phase.now))
  }

  predicate PunctualOk(s: State) {
    AllPunctual(s.rows) && forall t :: t in s.ticks ==> TickPunctual(s, t)
  }

  lemma SelectIsDue(s: State, t: nat, limit: nat, candidates: seq<nat>)
    requires TicksOk(s) && Enabled(s, Select(t, limit, candidates))
    ensures var now := s.ticks[t].phase.now;
            DueBy(s.rows, candidates, now) && DueBy(s.ticks[t].staged, candidates, now)
  {
    var Tick(_, phase, staged) := s.ticks[t];
    CandidatesAreDue(Visible(s, t), s.owner, phase.now, phase.cutoff, limit, candidates);
    assert TickOk(s, t);
    assert forall id :: id in staged ==> StagedOk(s, staged, id);
  }

  lemma ClaimIsPunctual(s: State, t: nat, claimed: seq<nat>)
    requires Enabled(s, ClaimSelected(t, claimed)) && TickPunctual(s, t)
    ensures AllPunctual(Apply(s, ClaimSelected(t, claimed)).ticks[t].staged)
  {
  }

  /** Rows that keep their identity stay due; a new row was no candidate. */
  lemma StaysDue(s: State, s': State, t: nat)
    requires TicksOk(s) && t in s.ticks && TickPunctual(s, t) && t in s'.ticks && s'.ticks[t] == s.ticks[t]
    requires forall id :: RowMoves(s, s', id)
    requires forall id :: id in s'.rows && id !in s.rows ==> id !in s.ticks[t].staged
    ensures TickPunctual(s', t)
  {
    assert TickOk(s, t);
    if s.ticks[t].phase.Selected? {
      forall id | id in s.ticks[t].phase.candidates && id in s'.rows
        ensures s'.rows[id].fireAt <= s.ticks[t].phase.now
      {
        assert CandidateOk(s, s.ticks[t].staged, id) && RowMoves(s, s', id);
      }
    }
  }

  /** The tick a step belongs to. */
  predicate Concerns(step: Step, t: nat) {
    IsTickStep(step) && step.t == t
  }

  lemma OtherTicksStayPunctual(s: State, step: Step, t: nat)
    requires Inv(s) && Enabled(s, step) && t in s.ticks && TickPunctual(s, t) && !Concerns(step, t)
    ensures var s' := Apply(s, step); t in s'.ticks && TickPunctual(s', t)
  {
    var s' := Apply(s, step);
    AllRowsMove(s, step);
    if step.Commit? {
      assert s.ticks[step.t].staged.Keys !! s.ticks[t].staged.Keys;
    }
    StaysDue(s, s', t);
  }

  lemma OwnTickStaysPunctual(s: State, step: Step)
    requires TicksOk(s) && Enabled(s, step) && IsTickStep(step) && AllPunctual(s.rows) && TickPunctual(s, step.t)
    ensures var s' := Apply(s, step); step.t in s'.ticks && TickPunctual(s', step.t)
  {
    match step {
      case Select(t, limit, candidates) => SelectIsDue(s, t, limit, candidates);
      case ClaimSelected(t, claimed) => ClaimIsPunctual(s, t, claimed);
      case SkipOld(t, now, cutoff) => SkipIsPunctual(s, t, now, cutoff);
      case _ =>
    }
  }

  lemma SkipIsPunctual(s: State, t: nat, now: Time, cutoff: Time)
    requires Enabled(s, SkipOld(t, now, cutoff)) && AllPunctual(s.rows) && TickPunctual(s, t)
    ensures TickPunctual(Apply(s, SkipOld(t, now, cutoff)), t)
  {
  }

  lemma PunctualPreserved(s: State, step: Step)
    requires Inv(s) && Enabled(s, step) && PunctualOk(s) && (step.Create? ==> Punctual(step.job))
    ensures PunctualOk(Apply(s, step))
  {
    var s' := Apply(s, step);
    forall t | t in s'.ticks ensures TickPunctual(s', t) {
      if Concerns(step, t) {
        OwnTickStaysPunctual(s, step);
      } else {
        OtherTicksStayPunctual(s, step, t);
      }
    }
    RowsStayPunctual(s, step);
  }

  lemma RowsStayPunctual(s: State, step: Step)
    requires Enabled(s, step) && AllPunctual(s.rows)
    requires IsTickStep(step) ==> TickPunctual(s, step.t)
    ensures AllPunctual(Apply(s, step).rows)
  {
  }

  /**
   * In any run that starts from punctual rows no job ever starts before its fire
   * time, whichever tick or dispatch started it.
   */
  lemma {:induction false} NothingStartsEarly(states: seq<State>, steps: seq<Step>, i: nat)
    requires IsRun(states, steps) && i < |states|
    requires forall id :: id in states[0].rows && states[0].rows[id].startedAt.Some? ==>
              states[0].rows[id].fireAt <= states[0].rows[id].startedAt.value
    ensures PunctualOk(states[i])
    ensures forall id :: id in states[i].rows && states[i].rows[id].startedAt.Some? ==>
              states[i].rows[id].fireAt <= states[i].rows[id].startedAt.value
  {
    if i > 0 {
      NothingStartsEarly(states, steps, i - 1);
      RunKeepsInv(states, steps, i - 1);
      PunctualPreserved(states[i - 1], steps[i - 1]);
    }
  }

  // ---- a queue holds the jobs of its account, from its dispatcher

  /** Step `j` of the run put the job into the queue. */
  ghost predicate EnqueuedAt(states: seq<State>, steps: seq<Step>, j: nat, k: Key, id: nat) {
    && j < |steps| && j < |states| && steps[j].Enqueue? && Enabled(states[j], steps[j])
    && NextToEnqueue(states[j], steps[j].t) == id && states[j].ticks[steps[j].t].dispatcher == k.dispatcher
  }

  lemma NewEntry(s: State, step: Step, k: Key, n: nat, id: nat)
    requires Enabled(s, step) && Entered(Apply(s, step), k, n, id) && !Entered(s, k, n, id)
    ensures step.Enqueue? && NextToEnqueue(s, step.t) == id && id in s.rows
    ensures k == Key(s.ticks[step.t].dispatcher, s.rows[id].account)
  {
    if step.Enqueue? {
      EntryOf(s, step.t, k, n, id);
    }
  }

  lemma EntryOf(s: State, t: nat, k: Key, n: nat, id: nat)
    requires Enabled(s, Enqueue(t)) && Entered(Apply(s, Enqueue(t)), k, n, id) && !Entered(s, k, n, id)
    ensures NextToEnqueue(s, t) == id && id in s.rows
    ensures k == Key(s.ticks[t].dispatcher, s.rows[id].account)
  {
    var Enqueuing(order, sent) := s.ticks[t].phase;
    var mine := Key(s.ticks[t].dispatcher, s.rows[order[sent]].account);
    assert Apply(s, Enqueue(t)).queues[mine].history == QueueOf(s, mine).history + [order[sent]];
  }

  /**
   * Whatever a queue has ever held is a job of the queue's account, put there by a
   * tick of the queue's dispatcher.
   */
  lemma {:induction false} QueuedForItsAccount(states: seq<State>, steps: seq<Step>, i: nat, k: Key, n: nat, id: nat)
    returns (j: nat)
    requires IsRun(states, steps) && i < |states| && Entered(states[i], k, n, id)
    ensures id in states[i].rows && states[i].rows[id].account == k.account
    ensures j < i && EnqueuedAt(states, steps, j, k, id)
  {
    assert i > 0;
    RunKeepsInv(states, steps, i - 1);
    RunKeepsInv(states, steps, i);
    RowsMove(states[i - 1], steps[i - 1], id);
    if Entered(states[i - 1], k, n, id) {
      j := QueuedForItsAccount(states, steps, i - 1, k, n, id);
    } else {
      j := i - 1;
      NewEntry(states[j], steps[j], k, n, id);
    }
  }

  /** Whatever the worker has in hand is a job of its account. */
  predicate HandsOk(s: State, w: nat) {
    Holds(s, w) ==>
      var id := s.workers[w].hands.value;
      id in s.rows && s.rows[id].account == s.workers[w].key.account
  }

  /** A step that puts something into a worker's hands takes it from the worker's queue. */
  lemma HandsKeepAccount(s: State, step: Step, w: nat)
    requires Enabled(s, step) && HandsOk(s, w)
    requires forall id :: RowMoves(s, Apply(s, step), id)
    requires step == Take(w) ==>
               NextToTake(s, w) in s.rows && s.rows[NextToTake(s, w)].account == s.workers[w].key.account
    ensures HandsOk(Apply(s, step), w)
  {
    var s' := Apply(s, step);
    if Holds(s', w) {
      assert RowMoves(s, s', s'.workers[w].hands.value);
    }
  }

  /** A worker has only jobs of its own account in hand, put in its queue by a tick of its dispatcher. */
  lemma {:induction false} HandsAreOfTheAccount(states: seq<State>, steps: seq<Step>, i: nat, w: nat) returns (j: nat)
    requires IsRun(states, steps) && i < |states|
    ensures var s := states[i];
            Holds(s, w) ==>
              && s.workers[w].hands.value in s.rows
              && s.rows[s.workers[w].hands.value].account == s.workers[w].key.account
              && j < i && EnqueuedAt(states, steps, j, s.workers[w].key, s.workers[w].hands.value)
  {
    j := 0;
    if i > 0 {
      var before, step := states[i - 1], steps[i - 1];
      j := HandsAreOfTheAccount(states, steps, i - 1, w);
      RunKeepsInv(states, steps, i - 1);
      AllRowsMove(before, step);
      if step == Take(w) {
        var k := before.workers[w].key;
        j := QueuedForItsAccount(states, steps, i - 1, k, QueueOf(before, k).head, NextToTake(before, w));
      }
      HandsKeepAccount(before, step, w);
      if Holds(states[i], w) {
        HandsComeFromTakes(before, step, w);
      }
    }
  }

  /** Only taking changes what a worker has in hand to something else. */
  lemma HandsComeFromTakes(s: State, step: Step, w: nat)
    requires Enabled(s, step) && Holds(Apply(s, step), w)
    ensures w in s.workers && Apply(s, step).workers[w].key == s.workers[w].key
    ensures Apply(s, step).workers[w].hands ==
              if step == Take(w) then Some(NextToTake(s, w)) else s.workers[w].hands
  {
  }

  /** Of two jobs taken from one queue the one taken first is ahead of the other in the queue's history. */
  lemma TakenInOrder(states: seq<State>, steps: seq<Step>, m: nat, n: nat, w: nat, v: nat) returns (a: nat, b: nat)
    requires IsRun(states, steps) && m < n < |steps| && steps[m] == Take(w) && steps[n] == Take(v)
    requires w in states[m].workers && v in states[n].workers && states[m].workers[w].key == states[n].workers[v].key
    ensures w in states[m + 1].workers && v in states[n + 1].workers
    ensures var k := states[m].workers[w].key;
            && k in states[n + 1].queues && a < b < |states[n + 1].queues[k].history|
            && states[m + 1].workers[w].hands == Some(states[n + 1].queues[k].history[a])
            && states[n + 1].workers[v].hands == Some(states[n + 1].queues[k].history[b])
  {
    var k := states[m].workers[w].key;
    a, b := QueueOf(states[m], k).head, QueueOf(states[n], k).head;
    assert Enabled(states[m], steps[m]) && states[m + 1] == Apply(states[m], steps[m]);
    assert Enabled(states[n], steps[n]) && states[n + 1] == Apply(states[n], steps[n]);
    QueuesGrowOverRun(states, steps, m + 1, n, k);
  }
}
