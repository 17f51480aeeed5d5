// What one cron tick adds to the jobs table, in columns: which workflows get
// which jobs, and nothing else.
module CronTicks {
  import opened Base
  import opened Jobs
  import opened Workflows
  import opened Inserts
  import opened Cron
  import opened CronRuns
  import opened CronHiding
  import Dispatcher

  /** The latest fire time of the workflow's jobs, or the lookback if there are none. */
  predicate StartsAfter(rows: Rows, w: nat, now: Time, lookback: real, anchor: Time) {
    && (forall id :: id in rows && rows[id].workflow == w ==> rows[id].fireAt <= anchor)
    && (anchor == now - lookback || exists id :: id in rows && rows[id].workflow == w && rows[id].fireAt == anchor)
    && ((exists id :: id in rows && rows[id].workflow == w) ==>
          exists id :: id in rows && rows[id].workflow == w && rows[id].fireAt == anchor)
  }

  lemma AnchorIsUnique(rows: Rows, w: nat, now: Time, lookback: real, a: Time, b: Time)
    requires StartsAfter(rows, w, now, lookback, a) && IsAnchor(FiresOf(rows, w), now, lookback, b)
    ensures a == b
  {
    forall id | id in rows && rows[id].workflow == w ensures rows[id].fireAt in FiresOf(rows, w) {
    }
    if b in FiresOf(rows, w) {
      var id :| id in rows && rows[id].workflow == w && rows[id].fireAt == b;
    }
  }

  lemma NewJobsAreOfCronWorkflows(table: Table, rows: Rows, rows': Rows, owner: nat, next: (string, Time) -> Time,
                                  now: Time, lookback: real, cap: nat, id: nat)
    requires TickedUpTo(table, rows, rows', owner, next, now, lookback, cap, table.Keys)
    requires id in rows' && id !in rows
    ensures var w := rows'[id].workflow;
            w in table && table[w].owner == owner && table[w].enabled && table[w].trigger.Cron?
  {
    assert !NoNewJobs(rows, rows', rows'[id].workflow);
  }

  /**
   * A tick leaves every stored row as it is, and adds for a workflow a job at `x`
   * exactly if the workflow is the owner's, enabled and has a cron trigger, and `x`
   * has come and is among the next `cap` occurrences after its anchor.
   */
  lemma TickCreatesExactly(table: Table, rows: Rows, rows': Rows, owner: nat, next: (string, Time) -> Time, now: Time,
                           lookback: real, cap: nat, w: nat, anchor: Time, x: Time)
    requires TickedUpTo(table, rows, rows', owner, next, now, lookback, cap, table.Keys)
    requires forall expression :: IsSchedule(Of(next, expression))
    requires StartsAfter(rows, w, now, lookback, anchor)
    ensures forall id :: id in rows ==> id in rows' && rows'[id] == rows[id]
    ensures (exists id :: id in rows' && id !in rows && rows'[id].workflow == w && rows'[id].fireAt == x)
       <==> && w in table && table[w].owner == owner && table[w].enabled && table[w].trigger.Cron?
            && x <= now && AmongNext(y => next(table[w].trigger.expression, y), anchor, cap, x)
  {
    if w in table && IsCronOf(table[w], owner) {
      var of := Of(next, table[w].trigger.expression);
      assert forall y :: of(y) == next(table[w].trigger.expression, y);
      var b, first: nat, slots :|
        IsAnchor(FiresOf(rows, w), now, lookback, b) && IsCatchUp(of, b, now, cap, slots) &&
            Filled(rows, rows', w, table[w], first, slots, None);
      AnchorIsUnique(rows, w, now, lookback, anchor, b);
      SlotExactly(Round({b}, now, b, slots, {b} + Elements(slots)), of, lookback, cap, x);
      FilledAt(rows, rows', w, table[w], first, slots, x);
    } else if id :| id in rows' && id !in rows && rows'[id].workflow == w && rows'[id].fireAt == x {
      NewJobsAreOfCronWorkflows(table, rows, rows', owner, next, now, lookback, cap, id);
    }
  }

  lemma FilledAt(rows: Rows, rows': Rows, w: nat, row: Row, first: nat, slots: seq<Time>, x: Time)
    requires Filled(rows, rows', w, row, first, slots, None)
    ensures x in slots <==>
              exists id :: id in rows' && id !in rows && rows'[id].workflow == w && rows'[id].fireAt == x
  {
    if x in slots {
      var i :| 0 <= i < |slots| && slots[i] == x;
      assert rows'[first + i].fireAt == x;
    }
    if id :| id in rows' && id !in rows && rows'[id].workflow == w && rows'[id].fireAt == x {
      assert slots[id - first] == x;
    }
  }

  /** The added jobs are pending, of their workflow's account and without a date; no two share workflow and time. */
  lemma AddedJobs(table: Table, rows: Rows, rows': Rows, owner: nat, next: (string, Time) -> Time, now: Time,
                  lookback: real, cap: nat, id: nat, other: nat)
    requires TickedUpTo(table, rows, rows', owner, next, now, lookback, cap, table.Keys)
    requires id in rows' && id !in rows && other in rows' && other !in rows
    ensures var w := rows'[id].workflow;
            && w in table
            && rows'[id] == Job(owner, w, table[w].account, rows'[id].fireAt, Pending, None, None, None, None, None)
            && (id != other && rows'[other].workflow == w ==> rows'[id].fireAt != rows'[other].fireAt)
  {
    NewJobsAreOfCronWorkflows(table, rows, rows', owner, next, now, lookback, cap, id);
    var w := rows'[id].workflow;
    CaughtUpJobs(rows, rows', w, table[w], Of(next, table[w].trigger.expression), now, lookback, cap, id, other);
  }

  lemma CaughtUpJobs(rows: Rows, rows': Rows, w: nat, row: Row, next: Time -> Time, now: Time, lookback: real,
                     cap: nat, id: nat, other: nat)
    requires CaughtUp(rows, rows', w, row, next, now, lookback, cap)
    requires id in rows' && id !in rows && rows'[id].workflow == w && other in rows' && other !in rows
    ensures rows'[id] == Job(row.owner, w, row.account, rows'[id].fireAt, Pending, None, None, None, None, None)
    ensures id != other && rows'[other].workflow == w ==> rows'[id].fireAt != rows'[other].fireAt
  {
    var anchor, first: nat, slots :|
      IsAnchor(FiresOf(rows, w), now, lookback, anchor) && IsCatchUp(next, anchor, now, cap, slots) &&
          Filled(rows, rows', w, row, first, slots, None);
    assert rows'[id].fireAt == slots[id - first];
    if rows'[other].workflow == w {
      assert rows'[other].fireAt == slots[other - first];
    }
  }

  /**
   * So a whole dispatcher tick, with the numbers of the code: of the next sixty
   * occurrences after the latest job, or after two minutes ago if there is none, it
   * adds those that have come.
   */
  lemma TickOnceCreatesExactly(table: Table, rows: Rows, rows': Rows, owner: nat, next: (string, Time) -> Time,
                               now: Time, claimNow: Time, batch: nat, window: real, created: seq<nat>,
                               claimed: seq<nat>, skipped: set<nat>, w: nat, anchor: Time, x: Time)
    requires Dispatcher.IsTick(table, rows, rows', owner, next, now, claimNow, batch, window, created, claimed, skipped)
    requires forall expression :: IsSchedule(Of(next, expression))
    requires StartsAfter(rows, w, now, 120.0, anchor)
    ensures (exists id :: id in rows' && id !in rows && rows'[id].workflow == w && rows'[id].fireAt == x)
       <==> && w in table && table[w].owner == owner && table[w].enabled && table[w].trigger.Cron?
            && x <= now && AmongNext(y => next(table[w].trigger.expression, y), anchor, 60, x)
  {
    var mid: Rows, candidates: seq<nat> :|
      && TickedUpTo(table, rows, mid, owner, next, now, LOOKBACK, MAX_CATCHUP, table.Keys)
      && CreatedIds(rows, mid, created)
      && IsClaim(mid, owner, claimNow, batch, window, candidates, rows') && SameIds(claimed, candidates)
      && skipped == TooOld(mid, owner, claimNow - window);
    ClaimKeepsIdentity(mid, rows', owner, claimNow, batch, window, candidates);
    TickCreatesExactly(table, rows, mid, owner, next, now, LOOKBACK, MAX_CATCHUP, w, anchor, x);
  }

  lemma ClaimKeepsIdentity(rows: Rows, rows': Rows, owner: nat, now: Time, batch: nat, window: real, claimed: seq<nat>)
    requires IsClaim(rows, owner, now, batch, window, claimed, rows')
    ensures rows'.Keys == rows.Keys
    ensures forall id :: id in rows ==> rows'[id].workflow == rows[id].workflow && rows'[id].fireAt == rows[id].fireAt
  {
  }
}
