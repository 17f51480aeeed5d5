// Daily expansion over whole runs: one schedule for each workflow and date, and
// a polling loop that expands each day at most once.
module DailyRuns {
  import opened Base
  import opened Jobs
  import opened Workflows
  import opened Inserts
  import TimeWindow
  import opened Daily
  import Cron
  import Dispatcher

  /** A successful `expand_daily` call, and any other transaction. */
  datatype Step = Expansion(table: Table, owner: nat, day: Day) | Other

  /** What every other transaction does: no row is deleted or moved, no new row carries an expansion date. */
  predicate KeepsDates(rows: Rows, rows': Rows) {
    && (forall id :: id in rows ==> id in rows' && SameIdentity(rows[id], rows'[id]))
    && (forall id :: id in rows' && id !in rows ==> rows'[id].expansionDate == None)
  }

  ghost predicate Takes(rows: Rows, step: Step, rows': Rows) {
    match step
    case Expansion(table, owner, day) => Fair(day, table) && ExpandedUpTo(table, rows, rows', owner, day, table.Keys)
    case Other => KeepsDates(rows, rows')
  }

  ghost predicate IsRun(states: seq<Rows>, steps: seq<Step>) {
    |states| == |steps| + 1 && forall i :: 0 <= i < |steps| ==> Takes(states[i], steps[i], states[i + 1])
  }

  /** A dispatcher tick, which inserts cron jobs and claims, is such a transaction. */
  lemma TicksKeepDates(table: Table, rows: Rows, rows': Rows, owner: nat, next: (string, Time) -> Time, now: Time,
                       claimNow: Time, batch: nat, window: real,
                       created: seq<nat>, claimed: seq<nat>, skipped: set<nat>)
    requires Dispatcher.IsTick(table, rows, rows', owner, next, now, claimNow, batch, window, created, claimed, skipped)
    ensures KeepsDates(rows, rows')
  {
    var mid: Rows, candidates: seq<nat> :|
      && Cron.TickedUpTo(table, rows, mid, owner, next, now, Cron.LOOKBACK, Cron.MAX_CATCHUP, table.Keys)
      && CreatedIds(rows, mid, created)
      && IsClaim(mid, owner, claimNow, batch, window, candidates, rows') && SameIds(claimed, candidates)
      && skipped == TooOld(mid, owner, claimNow - window);
    CronKeepsDates(table, rows, mid, owner, next, now);
    ClaimKeepsDates(mid, rows', owner, claimNow, batch, window, candidates);
  }

  lemma ClaimKeepsDates(rows: Rows, rows': Rows, owner: nat, now: Time, batch: nat, window: real, claimed: seq<nat>)
    requires IsClaim(rows, owner, now, batch, window, claimed, rows')
    ensures rows'.Keys == rows.Keys && forall id :: id in rows ==> SameIdentity(rows[id], rows'[id])
  {
  }

  lemma CronKeepsDates(table: Table, rows: Rows, mid: Rows, owner: nat, next: (string, Time) -> Time, now: Time)
    requires Cron.TickedUpTo(table, rows, mid, owner, next, now, Cron.LOOKBACK, Cron.MAX_CATCHUP, table.Keys)
    ensures KeepsDates(rows, mid)
  {
    forall id | id in mid && id !in rows ensures mid[id].expansionDate == None {
      var w := mid[id].workflow;
      assert !NoNewJobs(rows, mid, w);
      CronJobsAreUndated(rows, mid, w, table[w], Cron.Of(next, table[w].trigger.expression), now, id);
    }
  }

  lemma CronJobsAreUndated(rows: Rows, mid: Rows, w: nat, row: Row, next: Time -> Time, now: Time, id: nat)
    requires Cron.CaughtUp(rows, mid, w, row, next, now, Cron.LOOKBACK, Cron.MAX_CATCHUP)
    requires id in mid && id !in rows && mid[id].workflow == w
    ensures mid[id].expansionDate == None
  {
    var anchor, first: nat, slots :|
      Cron.IsAnchor(Cron.FiresOf(rows, w), now, Cron.LOOKBACK, anchor) &&
          Cron.IsCatchUp(next, anchor, now, Cron.MAX_CATCHUP, slots)
      && Filled(rows, mid, w, row, first, slots, None);
  }

  /** So are a trigger by hand, an immediate dispatch, the cancels and the terminal marks. */
  lemma SingleOperationsKeepDates(rows: Rows, id: nat, owner: nat, w: nat, account: nat, workflows: set<nat>, now: Time,
                                  reason: string, run: Option<nat>)
    ensures id !in rows ==>
              && KeepsDates(rows, rows[id := NewPending(owner, w, account, now, None)])
              && KeepsDates(rows, rows[id := NewRunning(owner, w, account, now)])
    ensures KeepsDates(rows, rows + CancelWrites(rows, workflows, owner, now))
    ensures id in rows ==>
              && KeepsDates(rows, rows[id := Cancel(rows[id], now)])
              && KeepsDates(rows, rows[id := Fail(rows[id], reason, run, now)])
              && KeepsDates(rows, rows[id := Succeed(rows[id], run, now)])
  {
  }

  /** And the startup spawn. */
  lemma SpawnKeepsDates(table: Table, rows: Rows, rows': Rows, owner: nat, now: Time)
    requires Dispatcher.SpawnedUpTo(table, rows, rows', owner, now, table.Keys)
    ensures KeepsDates(rows, rows')
  {
    forall id | id in rows' && id !in rows ensures rows'[id].expansionDate == None {
      var w := rows'[id].workflow;
      assert !NoNewJobs(rows, rows', w);
      var first :| Filled(rows, rows', w, table[w], first, [now], None);
    }
  }

  /** The schedule `step` computes for the workflow, if it is an expansion of that date. */
  ghost predicate Computes(step: Step, w: nat, date: int, slots: seq<Time>) {
    && step.Expansion? && step.day.date == date && Fair(step.day, step.table)
    && w in step.table && IsWindowOf(step.table[w], step.owner)
    && ExpansionOf(step.day, w, step.table[w]) == Base.Ok(slots)
  }

  /** The workflow's jobs of the date are exactly one schedule, on consecutive ids. */
  ghost predicate OneSchedule(rows: Rows, w: nat, date: int, first: nat, slots: seq<Time>) {
    && (forall id :: id in ExpandedOn(rows, w, date) <==> first <= id < first + |slots|)
    && (forall id :: id in ExpandedOn(rows, w, date) ==> rows[id].fireAt == slots[id - first])
  }

  lemma OtherKeepsSchedule(rows: Rows, rows': Rows, w: nat, date: int)
    requires KeepsDates(rows, rows')
    ensures ExpandedOn(rows', w, date) == ExpandedOn(rows, w, date)
    ensures forall id :: id in ExpandedOn(rows, w, date) ==> rows'[id].fireAt == rows[id].fireAt
  {
  }

  lemma FilledIsOneSchedule(rows: Rows, rows': Rows, w: nat, row: Row, first: nat, slots: seq<Time>, date: int)
    requires forall id :: id in rows ==> id in rows' && rows'[id] == rows[id]
    requires Filled(rows, rows', w, row, first, slots, Some(date))
    requires ExpandedOn(rows, w, date) == {}
    ensures OneSchedule(rows', w, date, first, slots)
  {
    forall id ensures id in ExpandedOn(rows', w, date) <==> first <= id < first + |slots| {
      assert id in rows && rows[id].workflow == w ==> id !in ExpandedOn(rows, w, date);
    }
  }

  lemma FilledOnAnotherDate(rows: Rows, rows': Rows, w: nat, row: Row, first: nat, slots: seq<Time>, filled: int,
                            date: int)
    requires forall id :: id in rows ==> id in rows' && rows'[id] == rows[id]
    requires Filled(rows, rows', w, row, first, slots, Some(filled))
    requires filled != date
    ensures ExpandedOn(rows', w, date) == ExpandedOn(rows, w, date)
  {
    assert forall id :: id in ExpandedOn(rows', w, date) ==> id in rows;
  }

  /** An expansion either leaves the workflow's jobs of a date alone or is the one that creates them all. */
  lemma ExpansionCreatesAllOrNothing(rows: Rows, step: Step, rows': Rows, w: nat, date: int)
    returns (first: nat, slots: seq<Time>)
    requires step.Expansion? && Takes(rows, step, rows')
    ensures (forall id :: id in rows ==> id in rows' && rows'[id] == rows[id])
    ensures ExpandedOn(rows', w, date) != ExpandedOn(rows, w, date) ==>
              ExpandedOn(rows, w, date) == {} && Computes(step, w, date, slots) &&
                  OneSchedule(rows', w, date, first, slots)
  {
    var Expansion(table, owner, day) := step;
    first, slots := 0, [];
    if Fresh(table, rows, owner, day.date, w) {
      slots := ExpansionOf(day, w, table[w]).value;
      assert Scheduled(rows, rows', day, w, table[w]);
      first :| Filled(rows, rows', w, table[w], first, slots, Some(day.date));
      if day.date == date {
        FilledIsOneSchedule(rows, rows', w, table[w], first, slots, date);
      } else {
        FilledOnAnotherDate(rows, rows', w, table[w], first, slots, day.date, date);
      }
    } else {
      SameExpanded(rows, rows', w, date);
    }
  }

  /**
   * Over any run, all jobs of a workflow and date come from one `expand` call of
   * one transaction, however often and wherever the expansion is repeated.
   */
  lemma {:induction false} OneCallPerDate(states: seq<Rows>, steps: seq<Step>, w: nat, date: int)
    returns (call: nat, first: nat, slots: seq<Time>)
    requires IsRun(states, steps) && ExpandedOn(states[0], w, date) == {}
    ensures ExpandedOn(states[|steps|], w, date) != {} ==>
              call < |steps| && Computes(steps[call], w, date, slots) &&
                  OneSchedule(states[|steps|], w, date, first, slots)
  {
    call, first, slots := 0, 0, [];
    if steps != [] {
      var n := |steps| - 1;
      assert states[..n + 1][n] == states[n];
      call, first, slots := OneCallPerDate(states[..n + 1], steps[..n], w, date);
      assert Takes(states[n], steps[n], states[n + 1]);
      if steps[n].Other? {
        OtherKeepsSchedule(states[n], states[n + 1], w, date);
      } else {
        var newFirst, newSlots := ExpansionCreatesAllOrNothing(states[n], steps[n], states[n + 1], w, date);
        if ExpandedOn(states[n + 1], w, date) != ExpandedOn(states[n], w, date) {
          call, first, slots := n, newFirst, newSlots;
        }
      }
    }
  }

  /** The workflow's jobs of the date are pairwise at least `gap` apart. */
  predicate Apart(rows: Rows, w: nat, date: int, gap: real) {
    forall a, b :: a in ExpandedOn(rows, w, date) && b in ExpandedOn(rows, w, date) && a < b ==>
        rows[b].fireAt - rows[a].fireAt >= gap
  }

  /** The minimum gap that an expansion step used for the workflow. */
  ghost predicate UsesGap(step: Step, w: nat, date: int, gap: real) {
    && step.Expansion? && step.day.date == date && w in step.table && step.table[w].trigger.TimeWindow?
    && TimeWindow.Duration(step.day.tokens(step.table[w].trigger.minGap)) == Base.Ok(gap)
  }

  /** So the stored fire times of a workflow and date stay pairwise at least its minimum gap apart. */
  lemma JobsOfADateAreSpaced(states: seq<Rows>, steps: seq<Step>, w: nat, date: int) returns (call: nat, gap: real)
    requires IsRun(states, steps) && ExpandedOn(states[0], w, date) == {} && ExpandedOn(states[|steps|], w, date) != {}
    ensures call < |steps| && UsesGap(steps[call], w, date, gap) && gap > 0.0 && Apart(states[|steps|], w, date, gap)
  {
    var first, slots;
    call, first, slots := OneCallPerDate(states, steps, w, date);
    var id :| id in ExpandedOn(states[|steps|], w, date);
    gap := ScheduleIsSpaced(steps[call], w, date, slots);
    OneScheduleIsApart(states[|steps|], w, date, first, slots, gap);
  }

  lemma OneScheduleIsApart(rows: Rows, w: nat, date: int, first: nat, slots: seq<Time>, gap: real)
    requires OneSchedule(rows, w, date, first, slots) && gap > 0.0 && TimeWindow.Spaced(slots, gap)
    ensures Apart(rows, w, date, gap)
  {
    forall a, b | a in ExpandedOn(rows, w, date) && b in ExpandedOn(rows, w, date) && a < b
      ensures rows[b].fireAt - rows[a].fireAt >= gap
    {
      SpacedApart(slots, gap, a - first, b - first);
    }
  }

  lemma ScheduleIsSpaced(step: Step, w: nat, date: int, slots: seq<Time>) returns (gap: real)
    requires Computes(step, w, date, slots) && slots != []
    ensures TimeWindow.Duration(step.day.tokens(step.table[w].trigger.minGap)) == Base.Ok(gap)
    ensures gap > 0.0 && TimeWindow.Spaced(slots, gap)
  {
    var row, day := step.table[w], step.day;
    var (start, end) := day.windows(row.trigger.window, day.date);
    var minGap := TimeWindow.Duration(day.tokens(row.trigger.minGap));
    TimeWindow.ExpandIsSpaced(start, end, Some(day.now), day.sampled(w), minGap, day.draw(w));
    gap := minGap.value;
  }

  lemma {:induction false} SpacedApart(slots: seq<Time>, gap: real, i: nat, j: nat)
    requires i < j < |slots| && gap > 0.0 && TimeWindow.Spaced(slots, gap)
    ensures slots[j] - slots[i] >= gap
    decreases j - i
  {
    if i + 1 < j {
      SpacedApart(slots, gap, i, j - 1);
    }
    assert slots[j] - slots[j - 1] >= gap;
  }

  // ---- the polling loop

  /** One poll: the wall clock, and whether an expansion started now would succeed. */
  datatype Poll = Poll(day: int, time: real, succeeds: bool)

  /** The days never go back. */
  predicate Nondecreasing(polls: seq<Poll>) {
    forall i, j :: 0 <= i < j < |polls| ==> polls[i].day <= polls[j].day
  }

  /** Some poll of the day at or after `expandAt` finds an expansion that would succeed. */
  predicate Expandable(polls: seq<Poll>, expandAt: real, day: int) {
    exists i :: 0 <= i < |polls| && polls[i].day == day && polls[i].time >= expandAt && polls[i].succeeds
  }

  class DailyExpander {
    const expandAt: real
    var lastExpanded: Option<int>

    constructor (expandAt: real)
      ensures this.expandAt == expandAt && lastExpanded == None
    {
      this.expandAt := expandAt;
      lastExpanded := None;
    }

    /**
     * One turn of the loop with the expansion it runs: it succeeds exactly if no
     * workflow of the day fails, and the day is marked only then.
     */
    method PollOnce(table: Table, bound: nat, jobs: JobTable, owner: nat, day: Day, time: real)
      requires jobs.Valid() && forall w :: w in table ==> w < bound
      modifies this, jobs
      ensures jobs.Valid()
      ensures var succeeds := !exists w :: Fails(table, old(jobs.rows), owner, day, w);
              && lastExpanded == (if time >= expandAt && succeeds then Some(day.date) else old(lastExpanded))
              && (if time >= expandAt && old(lastExpanded) != Some(day.date) && succeeds
                  then ExpandedUpTo(table, old(jobs.rows), jobs.rows, owner, day, table.Keys)
                  else jobs.rows == old(jobs.rows))
    {
      if time >= expandAt && lastExpanded != Some(day.date) {
        var report := ExpandDaily(table, bound, jobs, owner, day);
        if report.Ok? {
          lastExpanded := Some(day.date);
        }
      }
    }

    /**
     * The loop, for any polls. It lists the days it expanded successfully: each
     * once, and exactly those with a successful poll at or after `expandAt`.
     */
    method Loop(polls: seq<Poll>) returns (expanded: seq<int>)
      requires Nondecreasing(polls) && lastExpanded == None
      modifies this
      ensures Increasing(expanded)
      ensures forall day :: day in expanded <==> exists i ::
                0 <= i < |polls| && polls[i].day == day && polls[i].time >= expandAt && polls[i].succeeds
      ensures lastExpanded == if expanded == [] then None else Some(expanded[|expanded| - 1])
    {
      expanded := [];
      for n := 0 to |polls|
        invariant Increasing(expanded)
        invariant lastExpanded == if expanded == [] then None else Some(expanded[|expanded| - 1])
        invariant forall day :: day in expanded <==> Expandable(polls[..n], expandAt, day)
      {
        var now := polls[n];
        LaterDays(polls, expandAt, expanded, n);
        PollCounts(polls, expandAt, n);
        if now.time >= expandAt && lastExpanded != Some(now.day) {
          if now.succeeds {
            expanded := expanded + [now.day];
            lastExpanded := Some(now.day);
          }
        }
      }
      assert polls[..|polls|] == polls;
    }
  }

  /** Days expanded so far are no later than the next poll's. */
  lemma LaterDays(polls: seq<Poll>, expandAt: real, expanded: seq<int>, n: nat)
    requires n < |polls| && Nondecreasing(polls) && Increasing(expanded)
    requires forall day :: day in expanded ==> Expandable(polls[..n], expandAt, day)
    ensures forall i :: 0 <= i < |expanded| ==> expanded[i] <= polls[n].day
    ensures polls[n].day in expanded ==> expanded[|expanded| - 1] == polls[n].day
  {
    forall i | 0 <= i < |expanded| ensures expanded[i] <= polls[n].day {
      assert expanded[i] in expanded;
      var k :| 0 <= k < n && polls[..n][k].day == expanded[i];
      assert polls[k].day <= polls[n].day;
    }
  }

  lemma PollCounts(polls: seq<Poll>, expandAt: real, n: nat)
    requires n < |polls|
    ensures forall day :: Expandable(polls[..n + 1], expandAt, day)
              <==> (Expandable(polls[..n], expandAt, day)
                    || (day == polls[n].day && polls[n].time >= expandAt && polls[n].succeeds))
  {
    var a, b := polls[..n], polls[..n + 1];
    assert b[n] == polls[n] && forall i :: 0 <= i < n ==> a[i] == b[i];
    forall day ensures Expandable(a, expandAt, day) ==> Expandable(b, expandAt, day) {
      if Expandable(a, expandAt, day) {
        var i :| 0 <= i < |a| && a[i].day == day && a[i].time >= expandAt && a[i].succeeds;
        assert b[i] == a[i];
      }
    }
    forall day | Expandable(b, expandAt, day) && !Expandable(a, expandAt, day)
      ensures day == polls[n].day && polls[n].time >= expandAt && polls[n].succeeds
    {
      var i :| 0 <= i < |b| && b[i].day == day && b[i].time >= expandAt && b[i].succeeds;
      assert i == n;
    }
  }
}
