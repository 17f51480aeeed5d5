// Cron catch-up: what one tick inserts for each workflow, and what any sequence
// of ticks adds up to.
//
// The cron engine is a function giving the least occurrence strictly after an
// instant, for an arbitrary set of occurrences.
module Cron {
  import opened Base
  import opened Jobs
  import opened Workflows
  import opened Inserts

  const LOOKBACK: real := 120.0
  const MAX_CATCHUP: nat := 60

  ghost predicate Occurs(next: Time -> Time, x: Time) {
    exists before :: next(before) == x
  }

  /** `next` gives the least occurrence strictly after its argument. */
  ghost predicate IsSchedule(next: Time -> Time) {
    forall x :: next(x) > x && forall y :: next(y) > x ==> next(x) <= next(y)
  }

  predicate Ascending(s: seq<Time>) {
    forall i, j :: 0 <= i < j < |s| ==> s[i] < s[j]
  }

  /** Where the loop stands: at the anchor, or at the last slot. */
  function Cursor(anchor: Time, slots: seq<Time>): Time {
    if slots == [] then anchor else slots[|slots| - 1]
  }

  /** Every occurrence after the anchor up to the last slot, in order. */
  ghost predicate Block(next: Time -> Time, anchor: Time, now: Time, slots: seq<Time>) {
    && Ascending(slots)
    && (forall x :: x in slots ==> Occurs(next, x) && anchor < x <= now)
    && (forall x :: Occurs(next, x) && anchor < x <= Cursor(anchor, slots) ==> x in slots)
  }

  /** The slots of one tick: a gap-free block, complete up to now unless the cap cuts it off. */
  ghost predicate IsCatchUp(next: Time -> Time, anchor: Time, now: Time, cap: nat, slots: seq<Time>) {
    && |slots| <= cap && Block(next, anchor, now, slots)
    && (|slots| < cap ==> forall x :: Occurs(next, x) && anchor < x <= now ==> x in slots)
  }

  /** The fire times of a workflow's jobs, whatever their status and origin. */
  function FiresOf(rows: Rows, w: nat): set<Time> {
    set id | id in rows && rows[id].workflow == w :: rows[id].fireAt
  }

  ghost predicate IsAnchor(fires: set<Time>, now: Time, lookback: real, anchor: Time) {
    && (anchor in fires || (anchor == now - lookback && forall f :: f !in fires))
    && (forall f :: f in fires ==> f <= anchor)
  }

  lemma {:induction false} LatestExists(rows: Rows, ids: set<nat>) returns (latest: nat)
    requires ids != {} && ids <= rows.Keys
    ensures latest in ids && forall other :: other in ids ==> FiresNoLater(rows, other, latest)
  {
    latest :| latest in ids;
    if ids != {latest} {
      var rest := LatestExists(rows, ids - {latest});
      forall other | other in ids ensures other == latest || other in ids - {latest} {
      }
      latest := if rows[latest].fireAt < rows[rest].fireAt then rest else latest;
    }
  }

  /** SELECT max(fire_at) over all of the workflow's jobs. */
  method LastFireAt(jobs: JobTable, w: nat) returns (last: Option<Time>)
    ensures last == None ==> forall f :: f !in FiresOf(jobs.rows, w)
    ensures last.Some? ==> last.value in FiresOf(jobs.rows, w) && forall f :: f in FiresOf(jobs.rows, w) ==>
              f <= last.value
  {
    var ids := set id | id in jobs.rows && jobs.rows[id].workflow == w;
    forall f | f in FiresOf(jobs.rows, w) ensures exists id :: id in ids && jobs.rows[id].fireAt == f {
      var id :| id in jobs.rows && jobs.rows[id].workflow == w && jobs.rows[id].fireAt == f;
      assert id in ids;
    }
    if ids == {} {
      return None;
    }
    ghost var latest := LatestExists(jobs.rows, ids);
    var id :| id in ids && forall other :: other in ids ==> FiresNoLater(jobs.rows, other, id);
    last := Some(jobs.rows[id].fireAt);
    forall f | f in FiresOf(jobs.rows, w) ensures f <= last.value {
      var other :| other in ids && jobs.rows[other].fireAt == f;
      assert FiresNoLater(jobs.rows, other, id);
    }
  }

  /** One more slot: the next occurrence after the last one extends the block. */
  lemma SlotExtends(next: Time -> Time, anchor: Time, now: Time, cap: nat, slots: seq<Time>)
    requires IsSchedule(next) && |slots| < cap && Block(next, anchor, now, slots)
    ensures var cursor := Cursor(anchor, slots);
            if next(cursor) > now then IsCatchUp(next, anchor, now, cap, slots)
            else Block(next, anchor, now, slots + [next(cursor)])
  {
    var cursor := Cursor(anchor, slots);
    assert slots != [] ==> cursor in slots;
    forall x | Occurs(next, x) && cursor < x ensures next(cursor) <= x {
      var b :| next(b) == x;
    }
    assert Occurs(next, next(cursor));
  }

  method CatchUp(jobs: JobTable, w: nat, owner: nat, account: nat, next: Time -> Time, anchor: Time, now: Time,
                 cap: nat)
    returns (ids: seq<nat>, ghost slots: seq<Time>)
    requires jobs.Valid() && IsSchedule(next)
    modifies jobs
    ensures jobs.Valid() && IsCatchUp(next, anchor, now, cap, slots)
    ensures jobs.rows == old(jobs.rows) + Batch(old(jobs.nextId), owner, w, account, slots, None)
    ensures jobs.nextId == old(jobs.nextId) + |slots|
    ensures |ids| == |slots| && Consecutive(ids, old(jobs.nextId))
  {
    var produced, cursor := 0, anchor;
    ids, slots := [], [];
    while produced < cap
      invariant jobs.Valid() && produced == |slots| == |ids| <= cap
      invariant cursor == Cursor(anchor, slots) && Block(next, anchor, now, slots)
      invariant jobs.rows == old(jobs.rows) + Batch(old(jobs.nextId), owner, w, account, slots, None)
      invariant jobs.nextId == old(jobs.nextId) + |slots|
      invariant Consecutive(ids, old(jobs.nextId))
    {
      SlotExtends(next, anchor, now, cap, slots);
      var nextFire := next(cursor);
      if nextFire > now {
        return;
      }
      var id := InsertSlot(jobs, w, owner, account, nextFire, None, old(jobs.rows), old(jobs.nextId), slots);
      ids, slots := ids + [id], slots + [nextFire];
      cursor := nextFire;
      produced := produced + 1;
    }
  }

  /** The schedule of one cron expression. */
  function Of(next: (string, Time) -> Time, expression: string): Time -> Time {
    x => next(expression, x)
  }

  predicate IsCronOf(row: Row, owner: nat) {
    row.owner == owner && row.enabled && row.trigger.Cron?
  }

  ghost predicate CaughtUp(rows: Rows, rows': Rows, w: nat, row: Row, next: Time -> Time, now: Time, lookback: real,
                           cap: nat) {
    exists anchor, first: nat, slots ::
      IsAnchor(FiresOf(rows, w), now, lookback, anchor) && IsCatchUp(next, anchor, now, cap, slots) &&
          Filled(rows, rows', w, row, first, slots, None)
  }

  lemma SameFires(rows: Rows, rows': Rows, w: nat)
    requires forall id :: id in rows ==> id in rows' && rows'[id] == rows[id]
    requires NoNewJobs(rows, rows', w)
    ensures FiresOf(rows', w) == FiresOf(rows, w)
  {
    assert forall id :: id in rows' && rows'[id].workflow == w ==> id in rows;
  }

  lemma StaysCaughtUp(pre: Rows, mid: Rows, post: Rows, v: nat, row: Row, next: Time -> Time, now: Time,
                      lookback: real, cap: nat)
    requires CaughtUp(pre, mid, v, row, next, now, lookback, cap)
    requires forall id :: id in mid ==> id in post && post[id] == mid[id]
    requires NoNewJobs(mid, post, v)
    ensures CaughtUp(pre, post, v, row, next, now, lookback, cap)
  {
    var anchor, first: nat, slots :|
      IsAnchor(FiresOf(pre, v), now, lookback, anchor) && IsCatchUp(next, anchor, now, cap, slots) &&
          Filled(pre, mid, v, row, first, slots, None);
    StaysFilled(pre, mid, post, v, row, first, slots, None);
  }

  /** The tick so far: the workflows in `done` are caught up, no other has a new job. */
  ghost predicate TickedUpTo(table: Table, pre: Rows, rows: Rows, owner: nat, next: (string, Time) -> Time,
                             now: Time, lookback: real, cap: nat, done: set<nat>) {
    && CreatesFor(pre, rows, EnabledOf(table, owner), owner)
    && (forall w :: w in table && w in done && IsCronOf(table[w], owner) ==>
          CaughtUp(pre, rows, w, table[w], Of(next, table[w].trigger.expression), now, lookback, cap))
    && (forall w :: !(w in table && w in done && IsCronOf(table[w], owner)) ==> NoNewJobs(pre, rows, w))
  }

  lemma TickedOneMore(table: Table, pre: Rows, mid: Rows, owner: nat, next: (string, Time) -> Time,
                      now: Time, lookback: real, cap: nat, done: set<nat>, w: nat, anchor: Time, first: nat,
                          slots: seq<Time>)
    requires TickedUpTo(table, pre, mid, owner, next, now, lookback, cap, done)
    requires w in table && w !in done && IsCronOf(table[w], owner) && forall id :: id in mid ==> id < first
    requires IsAnchor(FiresOf(mid, w), now, lookback, anchor)
    requires IsCatchUp(Of(next, table[w].trigger.expression), anchor, now, cap, slots)
    ensures TickedUpTo(table, pre, mid + Batch(first, owner, w, table[w].account, slots, None), owner, next, now,
              lookback, cap, done + {w})
  {
    var post := mid + Batch(first, owner, w, table[w].account, slots, None);
    var read := EnabledOf(table, owner);
    BatchCreates(pre, mid, w, table[w], first, slots, None, read);
    BatchFills(pre, mid, w, table[w], first, slots, None);
    SameFires(pre, mid, w);
    forall v | v in table && v in done && IsCronOf(table[v], owner)
      ensures CaughtUp(pre, post, v, table[v], Of(next, table[v].trigger.expression), now, lookback, cap)
    {
      StaysCaughtUp(pre, mid, post, v, table[v], Of(next, table[v].trigger.expression), now, lookback, cap);
    }
  }

  /** One turn of the loop: a cron workflow catches up from its last job, or from the lookback. */
  method TickOne(table: Table, jobs: JobTable, owner: nat, next: (string, Time) -> Time, now: Time, lookback: real,
                 cap: nat, w: nat, created: seq<nat>, ghost pre: Rows, ghost done: set<nat>)
    returns (created': seq<nat>)
    requires jobs.Valid() && w in table && table[w].owner == owner && table[w].enabled && w !in done
    requires forall expression :: IsSchedule(Of(next, expression))
    requires TickedUpTo(table, pre, jobs.rows, owner, next, now, lookback, cap, done)
    requires CreatedIds(pre, jobs.rows, created)
    modifies jobs
    ensures jobs.Valid()
    ensures TickedUpTo(table, pre, jobs.rows, owner, next, now, lookback, cap, done + {w})
    ensures CreatedIds(pre, jobs.rows, created')
  {
    var row := table[w];
    if !row.trigger.Cron? {
      return created;
    }
    var last := LastFireAt(jobs, w);
    var anchor := if last.Some? then last.value else now - lookback;
    ghost var mid, first := jobs.rows, jobs.nextId;
    var ids, slots := CatchUp(jobs, w, owner, row.account, Of(next, row.trigger.expression), anchor, now, cap);
    TickedOneMore(table, pre, mid, owner, next, now, lookback, cap, done, w, anchor, first, slots);
    CreatedGrow(pre, mid, Batch(first, owner, w, row.account, slots, None), created, first, ids);
    created' := created + ids;
  }

  /** `cron_tick.tick`: every enabled cron workflow catches up; nothing else is inserted or changed. */
  method Tick(table: Table, bound: nat, jobs: JobTable, owner: nat, next: (string, Time) -> Time, now: Time,
              lookback: real, cap: nat)
    returns (created: seq<nat>)
    requires jobs.Valid() && (forall w :: w in table ==> w < bound)
    requires forall expression :: IsSchedule(Of(next, expression))
    modifies jobs
    ensures jobs.Valid() && TickedUpTo(table, old(jobs.rows), jobs.rows, owner, next, now, lookback, cap, table.Keys)
    ensures CreatedIds(old(jobs.rows), jobs.rows, created)
  {
    var workflows := Listing(table, bound, (row: Row) => row.owner == owner && row.enabled);
    ghost var pre := jobs.rows;
    created := [];
    for k := 0 to |workflows|
      invariant jobs.Valid() && CreatedIds(pre, jobs.rows, created)
      invariant TickedUpTo(table, pre, jobs.rows, owner, next, now, lookback, cap, Elements(workflows[..k]))
    {
      var w := workflows[k];
      assert w in workflows;
      assert w !in workflows[..k];
      created := TickOne(table, jobs, owner, next, now, lookback, cap, w, created, pre, Elements(workflows[..k]));
      assert Elements(workflows[..k]) + {w} == Elements(workflows[..k + 1]) by {
        assert workflows[..k + 1] == workflows[..k] + [w];
      }
    }
    assert workflows[..|workflows|] == workflows;
    ListingSuffices(table, workflows, pre, jobs.rows, owner, next, now, lookback, cap);
  }

  /** The listing misses no workflow that could catch up. */
  lemma ListingSuffices(table: Table, workflows: seq<nat>, pre: Rows, rows: Rows, owner: nat,
                        next: (string, Time) -> Time, now: Time, lookback: real, cap: nat)
    requires forall w :: w in table && table[w].owner == owner && table[w].enabled ==> w in workflows
    requires TickedUpTo(table, pre, rows, owner, next, now, lookback, cap, Elements(workflows))
    ensures TickedUpTo(table, pre, rows, owner, next, now, lookback, cap, table.Keys)
  {
    assert forall w :: w in table && IsCronOf(table[w], owner) ==> w in Elements(workflows);
  }
}
