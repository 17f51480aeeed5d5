// Expanding the time-window workflows of a day into jobs, at most once for each
// workflow and date, and the polling loop that drives it.
module Daily {
  import opened Base
  import opened Jobs
  import opened Workflows
  import opened Inserts
  import opened TimeWindow

  /** A day to expand, with everything the expansion consults: clock, window bounds, token pattern and draws. */
  datatype Day = Day(
    date: int,
    now: Time,
    windows: (string, int) -> (Time, Time),
    tokens: string -> seq<Token>,
    sampled: nat -> int,
    draw: nat -> (real, nat) -> real)

  predicate IsWindowOf(row: Row, owner: nat) {
    row.owner == owner && row.enabled && row.trigger.TimeWindow?
  }

  /** The draws stay inside what the triggers ask for. */
  ghost predicate Fair(day: Day, table: Table) {
    && (forall w: nat :: IsUniform(day.draw(w)))
    && (forall w :: w in table && table[w].trigger.TimeWindow? ==> Samples(table[w].trigger.count, day.sampled(w)))
  }

  function ExpansionOf(day: Day, w: nat, row: Row): Result<seq<Time>, string>
    requires row.trigger.TimeWindow?
  {
    var (start, end) := day.windows(row.trigger.window, day.date);
    Expand(start, end, Some(day.now), day.sampled(w), Duration(day.tokens(row.trigger.minGap)), day.draw(w))
  }

  /** A workflow this call expands: it has no job for the date yet. */
  predicate Fresh(table: Table, pre: Rows, owner: nat, date: int, w: nat) {
    w in table && IsWindowOf(table[w], owner) && ExpandedOn(pre, w, date) == {}
  }

  ghost predicate Scheduled(pre: Rows, rows: Rows, day: Day, w: nat, row: Row)
    requires row.trigger.TimeWindow?
  {
    && ExpansionOf(day, w, row).Ok?
    && exists first :: Filled(pre, rows, w, row, first, ExpansionOf(day, w, row).value, Some(day.date))
  }

  /** The expansion so far: each fresh workflow in `done` has its schedule, no other workflow has a new job. */
  ghost predicate ExpandedUpTo(table: Table, pre: Rows, rows: Rows, owner: nat, day: Day, done: set<nat>) {
    && CreatesFor(pre, rows, EnabledOf(table, owner), owner)
    && (forall w :: w in done && Fresh(table, pre, owner, day.date, w) ==> Scheduled(pre, rows, day, w, table[w]))
    && (forall w :: !(w in done && Fresh(table, pre, owner, day.date, w)) ==> NoNewJobs(pre, rows, w))
  }

  lemma SameExpanded(pre: Rows, rows: Rows, w: nat, date: int)
    requires (forall id :: id in pre ==> id in rows && rows[id] == pre[id]) && NoNewJobs(pre, rows, w)
    ensures ExpandedOn(rows, w, date) == ExpandedOn(pre, w, date)
  {
    assert forall id :: id in rows && rows[id].workflow == w ==> id in pre;
  }

  lemma ExpandedOneMore(table: Table, pre: Rows, mid: Rows, owner: nat, day: Day, done: set<nat>, w: nat, first: nat,
                        slots: seq<Time>)
    requires ExpandedUpTo(table, pre, mid, owner, day, done) && w !in done && Fresh(table, pre, owner, day.date, w)
    requires (forall id :: id in mid ==> id < first) && ExpansionOf(day, w, table[w]) == Ok(slots)
    ensures ExpandedUpTo(table, pre, mid + Batch(first, owner, w, table[w].account, slots, Some(day.date)), owner,
              day, done + {w})
  {
    var post := mid + Batch(first, owner, w, table[w].account, slots, Some(day.date));
    BatchCreates(pre, mid, w, table[w], first, slots, Some(day.date), EnabledOf(table, owner));
    BatchFills(pre, mid, w, table[w], first, slots, Some(day.date));
    forall v | v in done && Fresh(table, pre, owner, day.date, v) ensures Scheduled(pre, post, day, v, table[v]) {
      var slotsV := ExpansionOf(day, v, table[v]).value;
      var firstV :| Filled(pre, mid, v, table[v], firstV, slotsV, Some(day.date));
      StaysFilled(pre, mid, post, v, table[v], firstV, slotsV, Some(day.date));
    }
  }

  method InsertAll(jobs: JobTable, w: nat, owner: nat, account: nat, times: seq<Time>, date: int)
    returns (ids: seq<nat>)
    requires jobs.Valid()
    modifies jobs
    ensures jobs.Valid() && jobs.nextId == old(jobs.nextId) + |times|
    ensures jobs.rows == old(jobs.rows) + Batch(old(jobs.nextId), owner, w, account, times, Some(date))
    ensures |ids| == |times| && Consecutive(ids, old(jobs.nextId))
  {
    ghost var pre, first, done := jobs.rows, jobs.nextId, [];
    ids := [];
    for n := 0 to |times|
      invariant jobs.Valid() && |ids| == |done| == n && done == times[..n] && jobs.nextId == first + n
      invariant jobs.rows == pre + Batch(first, owner, w, account, done, Some(date))
      invariant Consecutive(ids, first)
    {
      var id := InsertSlot(jobs, w, owner, account, times[n], Some(date), pre, first, done);
      done := done + [times[n]];
      ids := ids + [id];
    }
    assert times[..|times|] == times;
  }

  /** A workflow to expand whose window is still open, with something to place and no amount in its gap. */
  predicate Fails(table: Table, pre: Rows, owner: nat, day: Day, w: nat) {
    Fresh(table, pre, owner, day.date, w) &&
    var trigger := table[w].trigger;
    var (start, end) := day.windows(trigger.window, day.date);
    Open(start, end, Some(day.now), day.sampled(w)) && NoAmount(day.tokens(trigger.minGap))
  }

  lemma ExpansionFailsExactly(table: Table, pre: Rows, owner: nat, day: Day, w: nat)
    requires Fresh(table, pre, owner, day.date, w)
    ensures ExpansionOf(day, w, table[w]).Err? <==> Fails(table, pre, owner, day, w)
  {
    var trigger := table[w].trigger;
    var (start, end) := day.windows(trigger.window, day.date);
    ExpandFailsExactly(start, end, Some(day.now), day.sampled(w), day.tokens(trigger.minGap), day.draw(w));
  }

  /** One turn of the loop: skip a workflow that already has jobs for the date, else insert its schedule. */
  method ExpandOne(table: Table, jobs: JobTable, owner: nat, day: Day, w: nat, created: seq<nat>, ghost pre: Rows,
                   ghost done: set<nat>)
    returns (r: Result<seq<nat>, string>)
    requires jobs.Valid() && w in table && table[w].owner == owner && table[w].enabled && w !in done
    requires ExpandedUpTo(table, pre, jobs.rows, owner, day, done) && CreatedIds(pre, jobs.rows, created)
    modifies jobs
    ensures jobs.Valid()
    ensures r.Err? <==> Fails(table, pre, owner, day, w)
    ensures r.Ok? ==> ExpandedUpTo(table, pre, jobs.rows, owner, day, done + {w}) && CreatedIds(pre, jobs.rows, r.value)
  {
    var row := table[w];
    if !row.trigger.TimeWindow? {
      return Ok(created);
    }
    SameExpanded(pre, jobs.rows, w, day.date);
    var existing := jobs.CountForExpansion(w, day.date);
    if existing > 0 {
      return Ok(created);
    }
    ExpansionFailsExactly(table, pre, owner, day, w);
    var gap := ParseDuration(day.tokens(row.trigger.minGap));
    var (start, end) := day.windows(row.trigger.window, day.date);
    var times := Expand(start, end, Some(day.now), day.sampled(w), gap, day.draw(w));
    if times.Err? {
      return Err(times.error);
    }
    ghost var mid, first := jobs.rows, jobs.nextId;
    var ids := InsertAll(jobs, w, owner, row.account, times.value, day.date);
    ExpandedOneMore(table, pre, mid, owner, day, done, w, first, times.value);
    CreatedGrow(pre, mid, Batch(first, owner, w, row.account, times.value, Some(day.date)), created, first, ids);
    r := Ok(created + ids);
  }

  method ExpandAll(table: Table, workflows: seq<nat>, jobs: JobTable, owner: nat, day: Day)
    returns (r: Result<seq<nat>, string>)
    requires jobs.Valid() && Distinct(workflows)
    requires forall w :: w in workflows ==> w in table && table[w].owner == owner && table[w].enabled
    modifies jobs
    ensures jobs.Valid()
    ensures r.Err? <==> exists w :: w in workflows && Fails(table, old(jobs.rows), owner, day, w)
    ensures r.Ok? ==>
              && ExpandedUpTo(table, old(jobs.rows), jobs.rows, owner, day, Elements(workflows))
              && CreatedIds(old(jobs.rows), jobs.rows, r.value)
  {
    ghost var pre := jobs.rows;
    ghost var done: set<nat> := {};
    var created: seq<nat> := [];
    for k := 0 to |workflows|
      invariant jobs.Valid() && done == Elements(workflows[..k])
      invariant ExpandedUpTo(table, pre, jobs.rows, owner, day, done) && CreatedIds(pre, jobs.rows, created)
      invariant forall i :: 0 <= i < k ==> !Fails(table, pre, owner, day, workflows[i])
    {
      var w := workflows[k];
      assert w in workflows;
      assert workflows[..k + 1] == workflows[..k] + [w];
      assert w !in done;
      var one := ExpandOne(table, jobs, owner, day, w, created, pre, done);
      if one.Err? {
        return one;
      }
      created := one.value;
      done := done + {w};
    }
    assert workflows[..|workflows|] == workflows;
    r := Ok(created);
  }

  /** The listing misses no workflow that there is anything to do for. */
  lemma ListingSuffices(table: Table, workflows: seq<nat>, pre: Rows, rows: Rows, owner: nat, day: Day)
    requires forall w :: w in table && table[w].owner == owner && table[w].enabled ==> w in workflows
    requires ExpandedUpTo(table, pre, rows, owner, day, Elements(workflows))
    ensures ExpandedUpTo(table, pre, rows, owner, day, table.Keys)
  {
    assert forall w :: Fresh(table, pre, owner, day.date, w) ==> w in Elements(workflows);
  }

  /**
   * `expand_daily` in its transaction. An unparsable minimum gap raises, which
   * rolls everything back: one such workflow stops the whole owner's day.
   */
  method ExpandDaily(table: Table, bound: nat, jobs: JobTable, owner: nat, day: Day)
    returns (r: Result<seq<nat>, string>)
    requires jobs.Valid() && forall w :: w in table ==> w < bound
    modifies jobs
    ensures jobs.Valid()
    ensures r.Err? <==> exists w :: Fails(table, old(jobs.rows), owner, day, w)
    ensures r.Err? ==> jobs.rows == old(jobs.rows) && jobs.nextId == old(jobs.nextId)
    ensures r.Ok? ==>
              && ExpandedUpTo(table, old(jobs.rows), jobs.rows, owner, day, table.Keys)
              && CreatedIds(old(jobs.rows), jobs.rows, r.value)
  {
    var workflows := Listing(table, bound, (row: Row) => row.owner == owner && row.enabled);
    var savedRows, savedNext := jobs.rows, jobs.nextId;
    r := ExpandAll(table, workflows, jobs, owner, day);
    assert forall w :: Fails(table, savedRows, owner, day, w) ==> w in workflows;
    if r.Err? {
      jobs.rows, jobs.nextId := savedRows, savedNext;
    } else {
      ListingSuffices(table, workflows, savedRows, jobs.rows, owner, day);
    }
  }

  /** A window trigger of the owner that is enabled and has no job for the date. */
  predicate Awaits(table: Table, pre: Rows, owner: nat, date: int, w: nat) {
    && w in table && table[w].owner == owner && table[w].enabled && table[w].trigger.TimeWindow?
    && forall id :: id in pre && pre[id].workflow == w ==> pre[id].expansionDate != Some(date)
  }

  lemma AwaitsIsFresh(table: Table, pre: Rows, owner: nat, date: int, w: nat)
    ensures Awaits(table, pre, owner, date, w) <==> Fresh(table, pre, owner, date, w)
  {
    if w in table && IsWindowOf(table[w], owner) && !Awaits(table, pre, owner, date, w) {
      var id :| id in pre && pre[id].workflow == w && pre[id].expansionDate == Some(date);
      assert id in ExpandedOn(pre, w, date);
    }
  }

  /** At most `n` times that fit the window, and no such times are more. */
  ghost predicate LongestFit(ts: seq<Time>, n: int, start: Time, end: Time, now: Time, gap: real) {
    && Fits(ts, start, end, Some(now), gap) && |ts| <= n
    && forall other :: Fits(other, start, end, Some(now), gap) && |other| <= n ==> |other| <= |ts|
  }

  /** The times are as many as the count asks for, or as can fit, and none once the window has closed. */
  ghost predicate FillsTheWindow(day: Day, w: nat, trigger: Trigger, ts: seq<Time>)
    requires trigger.TimeWindow?
  {
    var (start, end) := day.windows(trigger.window, day.date);
    var n, gap := day.sampled(w), Duration(day.tokens(trigger.minGap));
    && (match trigger.count case Fixed(k) => n == k case Range(min, max) => min <= n <= max)
    && if n > 0 && start < end && day.now < end
       then gap.Ok? && LongestFit(ts, n, start, end, day.now, gap.value) && ts != []
       else ts == []
  }

  lemma ExpansionFills(day: Day, table: Table, w: nat)
    requires Fair(day, table) && w in table && table[w].trigger.TimeWindow? && ExpansionOf(day, w, table[w]).Ok?
    ensures FillsTheWindow(day, w, table[w].trigger, ExpansionOf(day, w, table[w]).value)
  {
    var (start, end) := day.windows(table[w].trigger.window, day.date);
    var gap := Duration(day.tokens(table[w].trigger.minGap));
    ExpandIsSpaced(start, end, Some(day.now), day.sampled(w), gap, day.draw(w));
  }

  /** The workflow's new jobs, in columns: pending and dated, one for each of the times, on consecutive ids. */
  ghost predicate Dated(pre: Rows, rows: Rows, owner: nat, w: nat, account: nat, first: nat, ts: seq<Time>, date: int) {
    && (forall id :: id in rows && id !in pre && rows[id].workflow == w <==> first <= id < first + |ts|)
    && (forall id :: first <= id < first + |ts| ==>
          && id in rows
          && rows[id] == Job(owner, w, account, ts[id - first], Pending, None, None, None, None, Some(date)))
  }

  lemma ScheduledIsDated(pre: Rows, rows: Rows, day: Day, w: nat, row: Row) returns (first: nat, ts: seq<Time>)
    requires row.trigger.TimeWindow? && Scheduled(pre, rows, day, w, row)
    ensures ExpansionOf(day, w, row) == Ok(ts) && Dated(pre, rows, row.owner, w, row.account, first, ts, day.date)
  {
    ts := ExpansionOf(day, w, row).value;
    first :| Filled(pre, rows, w, row, first, ts, Some(day.date));
  }

  /**
   * What a day's expansion gives one workflow: nothing unless it has no job for the
   * date and its window is still open, and then pending dated jobs at times `ts`
   * that fit the window, as many as its count asks for or as can fit. Stored rows
   * stay as they are.
   */
  lemma DayCreatesExactly(table: Table, pre: Rows, rows: Rows, owner: nat, day: Day, w: nat)
    returns (first: nat, ts: seq<Time>)
    requires Fair(day, table) && ExpandedUpTo(table, pre, rows, owner, day, table.Keys)
    ensures forall id :: id in pre ==> id in rows && rows[id] == pre[id]
    ensures Awaits(table, pre, owner, day.date, w) ==>
              && Dated(pre, rows, owner, w, table[w].account, first, ts, day.date)
              && FillsTheWindow(day, w, table[w].trigger, ts)
    ensures !Awaits(table, pre, owner, day.date, w) ==>
              forall id :: id in rows && id !in pre ==> rows[id].workflow != w
  {
    AwaitsIsFresh(table, pre, owner, day.date, w);
    first, ts := 0, [];
    if Awaits(table, pre, owner, day.date, w) {
      assert Scheduled(pre, rows, day, w, table[w]);
      first, ts := ScheduledIsDated(pre, rows, day, w, table[w]);
      ExpansionFills(day, table, w);
    } else {
      assert NoNewJobs(pre, rows, w);
    }
  }

  // ---- one workflow with a zero gap

  function WindowRow(name: string, minGap: string): Row {
    Row(0, name, 0, true, Yaml, Trigger.TimeWindow("09:00-10:00", Fixed(1), minGap), Plan([], [], false), 0)
  }

  function OrdinaryDay(): Day {
    Day(1, 0.0, (window, date) => (32400.0, 36000.0),
        text => if text == "0m" then [Token(0, Minutes)] else [Token(30, Minutes)],
        w => 1, w => (b, i) => 0.0)
  }

  /**
   * A workflow with a gap of `0m` fails the day also for the workflow next to it,
   * which alone would have been expanded.
   */
  lemma ZeroGapStopsTheDay() returns (alone: Table, both: Table, day: Day)
    ensures both == alone[2 := WindowRow("broken", "0m")] && day.tokens("0m") == [Token(0, Minutes)]
    ensures Fair(day, both) && Fails(both, map[], 0, day, 2)
    ensures forall w :: !Fails(alone, map[], 0, day, w)
    ensures 1 in alone && Fresh(alone, map[], 0, day.date, 1)
    ensures ExpansionOf(day, 1, alone[1]).Ok? && |ExpansionOf(day, 1, alone[1]).value| == 1
  {
    day := OrdinaryDay();
    alone := map[1 := WindowRow("sound", "30m")];
    both := alone[2 := WindowRow("broken", "0m")];
    assert ExpandedOn(map[], 1, 1) == {} && ExpandedOn(map[], 2, 1) == {};
    assert day.tokens("30m")[0].value == 30;
    ExpandsToOne(day, alone[1]);
  }

  lemma ExpandsToOne(day: Day, row: Row)
    requires day == OrdinaryDay() && row == WindowRow("sound", "30m")
    ensures ExpansionOf(day, 1, row).Ok? && |ExpansionOf(day, 1, row).value| == 1
  {
    var gap := Duration([Token(30, Minutes)]);
    assert TotalOf([Token(30, Minutes)], Minutes) == 30;
    FeasibleBounds(3600.0, 1800.0);
    ExpandIsSpaced(32400.0, 36000.0, Some(0.0), 1, gap, day.draw(1));
  }
}
