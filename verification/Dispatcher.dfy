// The dispatcher object and the control entry points, run one transaction at a
// time. `JobProtocol` has the same operations cut into statements and interleaved.
module Dispatcher {
  import opened Base
  import opened Jobs
  import opened Workflows
  import opened Inserts
  import Cron

  /** The ids of one account's jobs, in order. */
  function ForAccount(ids: seq<nat>, rows: Rows, account: nat): seq<nat> {
    if ids == [] then []
    else
      var n := |ids| - 1;
      var earlier := ForAccount(ids[..n], rows, account);
      if ids[n] in rows && rows[ids[n]].account == account then earlier + [ids[n]] else earlier
  }

  /** An account's share is exactly its own ids, in the order given: `at` are their positions. */
  lemma {:induction false} ForAccountKeepsOrder(ids: seq<nat>, rows: Rows, account: nat) returns (at: seq<nat>)
    ensures forall id :: id in ForAccount(ids, rows, account) <==>
              id in ids && id in rows && rows[id].account == account
    ensures Distinct(ids) ==> Distinct(ForAccount(ids, rows, account))
    ensures Increasing(at) && |at| == |ForAccount(ids, rows, account)|
    ensures forall k :: 0 <= k < |at| ==> at[k] < |ids| && ForAccount(ids, rows, account)[k] == ids[at[k]]
  {
    at := [];
    if ids != [] {
      var n := |ids| - 1;
      at := ForAccountKeepsOrder(ids[..n], rows, account);
      assert ids == ids[..n] + [ids[n]];
      if ids[n] in rows && rows[ids[n]].account == account {
        at := at + [n];
      }
    }
  }

  /** Each queue holds jobs of its account that have left the pending state, each once. */
  predicate QueuesOk(queues: map<nat, seq<nat>>, rows: Rows) {
    forall a :: a in queues ==> QueueOk(queues[a], rows, a)
  }

  predicate QueueOk(queue: seq<nat>, rows: Rows, a: nat) {
    Distinct(queue) && forall id :: id in queue ==> id in rows && rows[id].account == a && rows[id].status != Pending
  }

  lemma QueueStaysOk(queue: seq<nat>, rows: Rows, a: nat, claimed: seq<nat>)
    requires QueueOk(queue, rows, a) && Distinct(claimed)
    requires forall id :: id in claimed ==> id in rows && rows[id].status == Running && id !in queue
    ensures QueueOk(queue + ForAccount(claimed, rows, a), rows, a)
  {
    var more := ForAccount(claimed, rows, a);
    var _ := ForAccountKeepsOrder(claimed, rows, a);
    forall i, j | 0 <= i < |queue| && 0 <= j < |more| ensures queue[i] != more[j] {
      assert queue[i] in queue && more[j] in more;
    }
  }

  function QueueIn(queues: map<nat, seq<nat>>, a: nat): seq<nat> {
    if a in queues then queues[a] else []
  }

  /** The ids have been appended to their accounts' queues, in order. */
  ghost predicate AllQueued(before: map<nat, seq<nat>>, after: map<nat, seq<nat>>, ids: seq<nat>, rows: Rows) {
    forall a: nat :: QueueIn(after, a) == QueueIn(before, a) + ForAccount(ids, rows, a)
  }

  lemma PutQueuesOne(before: map<nat, seq<nat>>, after: map<nat, seq<nat>>, ids: seq<nat>, rows: Rows, id: nat)
    requires AllQueued(before, after, ids, rows) && id in rows
    ensures AllQueued(before, after[rows[id].account := QueueIn(after, rows[id].account) + [id]], ids + [id], rows)
  {
    assert (ids + [id])[..|ids|] == ids;
  }

  lemma ImmediateKeepsQueues(queues: map<nat, seq<nat>>, rows: Rows, id: nat, job: Job)
    requires QueuesOk(queues, rows) && id !in rows && job.status != Pending
    ensures QueuesOk(queues[job.account := QueueIn(queues, job.account) + [id]], rows[id := job])
  {
    var after := queues[job.account := QueueIn(queues, job.account) + [id]];
    forall a | a in after ensures QueueOk(after[a], rows[id := job], a) {
      assert a in queues ==> QueueOk(queues[a], rows, a);
    }
  }

  /** One tick's transaction: catch up the cron workflows, then claim; `claimed` comes in any order. */
  ghost predicate IsTick(table: Table, pre: Rows, post: Rows, owner: nat, next: (string, Time) -> Time, now: Time,
                         claimNow: Time, batch: nat, window: real,
                         created: seq<nat>, claimed: seq<nat>, skipped: set<nat>) {
    exists mid, candidates ::
      && Cron.TickedUpTo(table, pre, mid, owner, next, now, Cron.LOOKBACK, Cron.MAX_CATCHUP, table.Keys)
      && CreatedIds(pre, mid, created)
      && IsClaim(mid, owner, claimNow, batch, window, candidates, post) && SameIds(claimed, candidates)
      && skipped == TooOld(mid, owner, claimNow - window)
  }

  /** What was claimed was not queued before, and has an account to be queued for. */
  lemma ClaimedIsNew(queues: map<nat, seq<nat>>, pre: Rows, mid: Rows, post: Rows, owner: nat, now: Time, batch: nat,
                     window: real, candidates: seq<nat>, claimed: seq<nat>)
    requires QueuesOk(queues, pre) && (forall id :: id in pre ==> id in mid && mid[id] == pre[id])
    requires IsClaim(mid, owner, now, batch, window, candidates, post) && SameIds(claimed, candidates)
    ensures QueuesOk(queues, post)
    ensures forall id :: id in claimed ==> id in post && post[id].status == Running
    ensures forall id, a :: id in claimed && a in queues ==> id !in queues[a]
  {
    var kept := mid + SkipWrites(mid, owner, now - window, now);
    forall id | id in claimed ensures id in kept && kept[id].status == Pending && id in post &&
        post[id].status == Running {
      assert id in Due(kept, owner, now, now - window);
    }
  }

  class Dispatcher {
    const owner: nat
    const batch: nat
    const window: real
    var queues: map<nat, seq<nat>>

    constructor (owner: nat, batch: nat, window: real)
      ensures this.owner == owner && this.batch == batch && this.window == window && queues == map[]
    {
      this.owner, this.batch, this.window := owner, batch, window;
      queues := map[];
    }

    /** `queue_for(account).put_nowait(job)`. */
    method Put(account: nat, id: nat)
      modifies this`queues
      ensures queues == old(queues)[account := QueueIn(old(queues), account) + [id]]
    {
      if account !in queues {
        queues := queues[account := []];
      }
      queues := queues[account := queues[account] + [id]];
    }

    method EnqueueAll(claimed: seq<nat>, jobs: JobTable)
      requires forall id :: id in claimed ==> id in jobs.rows
      modifies this`queues
      ensures AllQueued(old(queues), queues, claimed, jobs.rows)
    {
      for n := 0 to |claimed|
        invariant AllQueued(old(queues), queues, claimed[..n], jobs.rows)
      {
        var id := claimed[n];
        assert id in claimed;
        assert claimed[..n + 1] == claimed[..n] + [id];
        PutQueuesOne(old(queues), queues, claimed[..n], jobs.rows, id);
        Put(jobs.rows[id].account, id);
      }
      assert claimed[..|claimed|] == claimed;
    }

    /** `tick_once`: each claimed job goes to its account's queue, in the order returned, and nowhere else. */
    method TickOnce(table: Table, bound: nat, jobs: JobTable, next: (string, Time) -> Time, now: Time, claimNow: Time)
      returns (created: seq<nat>, claimed: seq<nat>, skipped: set<nat>)
      requires jobs.Valid() && QueuesOk(queues, jobs.rows) && forall w :: w in table ==> w < bound
      requires forall expression :: Cron.IsSchedule(Cron.Of(next, expression))
      modifies this`queues, jobs
      ensures jobs.Valid() && QueuesOk(queues, jobs.rows)
      ensures IsTick(table, old(jobs.rows), jobs.rows, owner, next, now, claimNow, batch, window, created, claimed,
                skipped)
      ensures forall id :: id in claimed ==>
                && id in jobs.rows && jobs.rows[id].owner == owner && jobs.rows[id].status == Running
                && jobs.rows[id].startedAt == Some(claimNow) && claimNow - window <= jobs.rows[id].fireAt <= claimNow
      ensures AllQueued(old(queues), queues, claimed, jobs.rows)
    {
      created := Cron.Tick(table, bound, jobs, owner, next, now, Cron.LOOKBACK, Cron.MAX_CATCHUP);
      ghost var mid := jobs.rows;
      ghost var candidates;
      claimed, skipped, candidates := jobs.ClaimDueJobs(owner, claimNow, batch, window);
      ClaimedIsNew(queues, old(jobs.rows), mid, jobs.rows, owner, claimNow, batch, window, candidates, claimed);
      ghost var before := queues;
      EnqueueAll(claimed, jobs);
      QueuesStayOk(before, queues, jobs.rows, claimed);
    }

    /** `dispatch_immediate`: refused for a missing, foreign or disabled workflow. */
    method DispatchImmediate(table: Table, jobs: JobTable, w: nat, account: nat, now: Time) returns (id: Option<nat>)
      requires jobs.Valid() && QueuesOk(queues, jobs.rows)
      modifies this`queues, jobs
      ensures jobs.Valid() && QueuesOk(queues, jobs.rows)
      ensures id.Some? <==> w in table && table[w].owner == owner && table[w].enabled
      ensures id == None ==> jobs.rows == old(jobs.rows) && queues == old(queues)
      ensures id.Some? ==>
                && id.value !in old(jobs.rows)
                && jobs.rows == old(jobs.rows)[id.value :=
                     Job(owner, w, account, now, Running, Some(now), None, None, None, None)]
                && queues == old(queues)[account := QueueIn(old(queues), account) + [id.value]]
    {
      if !(w in table && table[w].owner == owner) || !table[w].enabled {
        return None;
      }
      var newId := jobs.CreateRunning(owner, w, account, now);
      ImmediateKeepsQueues(queues, old(jobs.rows), newId, NewRunning(owner, w, account, now));
      Put(account, newId);
      id := Some(newId);
    }
  }

  lemma QueuesStayOk(before: map<nat, seq<nat>>, after: map<nat, seq<nat>>, rows: Rows, claimed: seq<nat>)
    requires QueuesOk(before, rows) && Distinct(claimed)
    requires forall id :: id in claimed ==> id in rows && rows[id].status == Running
    requires forall id, a :: id in claimed && a in before ==> id !in before[a]
    requires AllQueued(before, after, claimed, rows)
    ensures QueuesOk(after, rows)
  {
    forall a | a in after ensures QueueOk(after[a], rows, a) {
      QueueStaysOk(QueueIn(before, a), rows, a, claimed);
      assert QueueIn(after, a) == QueueIn(before, a) + ForAccount(claimed, rows, a);
    }
  }

  // ---- control

  /** `trigger_now`. */
  method TriggerNow(table: Table, jobs: JobTable, w: nat, owner: nat, now: Time) returns (id: Option<nat>)
    requires jobs.Valid()
    modifies jobs
    ensures jobs.Valid() && CreatesFor(old(jobs.rows), jobs.rows, EnabledOf(table, owner), owner)
    ensures id.Some? <==> w in table && table[w].owner == owner && table[w].enabled
    ensures id == None ==> jobs.rows == old(jobs.rows)
    ensures id.Some? ==>
              && id.value !in old(jobs.rows)
              && jobs.rows == old(jobs.rows)[id.value :=
                   Job(owner, w, table[w].account, now, Pending, None, None, None, None, None)]
  {
    if !(w in table && table[w].owner == owner) || !table[w].enabled {
      return None;
    }
    var newId := jobs.CreatePending(owner, w, table[w].account, now, None);
    id := Some(newId);
  }

  /** Fires once in the life of the process. */
  class StartupTracker {
    var fired: bool

    constructor ()
      ensures !fired
    {
      fired := false;
    }

    method Consume() returns (first: bool)
      modifies this
      ensures fired && (first <==> !old(fired))
    {
      first := !fired;
      fired := true;
    }
  }

  predicate IsStartupOf(table: Table, owner: nat, w: nat) {
    w in table && table[w].owner == owner && table[w].enabled && table[w].trigger.Startup?
  }

  ghost predicate Spawned(pre: Rows, rows: Rows, w: nat, row: Row, now: Time) {
    exists first :: Filled(pre, rows, w, row, first, [now], None)
  }

  lemma StaysSpawned(pre: Rows, mid: Rows, post: Rows, v: nat, row: Row, now: Time)
    requires Spawned(pre, mid, v, row, now) && NoNewJobs(mid, post, v)
    requires forall id :: id in mid ==> id in post && post[id] == mid[id]
    ensures Spawned(pre, post, v, row, now)
  {
    var first :| Filled(pre, mid, v, row, first, [now], None);
    StaysFilled(pre, mid, post, v, row, first, [now], None);
  }

  /** Each enabled startup workflow in `done` has exactly one new job; no other workflow has any. */
  ghost predicate SpawnedUpTo(table: Table, pre: Rows, rows: Rows, owner: nat, now: Time, done: set<nat>) {
    && CreatesFor(pre, rows, EnabledOf(table, owner), owner)
    && (forall w :: w in done && IsStartupOf(table, owner, w) ==> Spawned(pre, rows, w, table[w], now))
    && (forall w :: !(w in done && IsStartupOf(table, owner, w)) ==> NoNewJobs(pre, rows, w))
  }

  /** In columns: exactly the owner's enabled startup workflows get a job, each one, due now; old rows stay. */
  lemma SpawnCreatesExactly(table: Table, pre: Rows, rows: Rows, owner: nat, now: Time)
    requires SpawnedUpTo(table, pre, rows, owner, now, table.Keys)
    ensures forall id :: id in pre ==> id in rows && rows[id] == pre[id]
    ensures forall id :: id in rows && id !in pre ==>
              var w := rows[id].workflow;
              && w in table && table[w].owner == owner && table[w].enabled && table[w].trigger == Startup
              && rows[id] == Job(owner, w, table[w].account, now, Pending, None, None, None, None, None)
    ensures forall id, other :: id in rows && other in rows && id !in pre && other !in pre && id != other ==>
              rows[id].workflow != rows[other].workflow
    ensures forall w :: w in table && table[w].owner == owner && table[w].enabled && table[w].trigger == Startup ==>
              exists id :: id in rows && id !in pre && rows[id].workflow == w
  {
    forall id | id in rows && id !in pre ensures IsStartupOf(table, owner, rows[id].workflow) {
      assert !NoNewJobs(pre, rows, rows[id].workflow);
    }
    forall id, other | id in rows && other in rows && id !in pre && other !in pre && id != other
      ensures rows[id].workflow != rows[other].workflow
    {
      var w := rows[id].workflow;
      var first :| Filled(pre, rows, w, table[w], first, [now], None);
    }
    forall id | id in rows && id !in pre ensures rows[id].fireAt == now && rows[id].expansionDate == None {
      var w := rows[id].workflow;
      var first :| Filled(pre, rows, w, table[w], first, [now], None);
    }
    forall w | IsStartupOf(table, owner, w) ensures exists id :: id in rows && id !in pre && rows[id].workflow == w {
      var first :| Filled(pre, rows, w, table[w], first, [now], None);
      assert first in rows;
    }
  }

  lemma SpawnedOneMore(table: Table, pre: Rows, mid: Rows, owner: nat, now: Time, done: set<nat>, w: nat, first: nat)
    requires SpawnedUpTo(table, pre, mid, owner, now, done) && w !in done && IsStartupOf(table, owner, w)
    requires forall id :: id in mid ==> id < first
    ensures SpawnedUpTo(table, pre, mid[first := NewPending(owner, w, table[w].account, now, None)], owner, now,
              done + {w})
  {
    var post := mid[first := NewPending(owner, w, table[w].account, now, None)];
    assert mid + Batch(first, owner, w, table[w].account, [now], None) == post;
    BatchCreates(pre, mid, w, table[w], first, [now], None, EnabledOf(table, owner));
    BatchFills(pre, mid, w, table[w], first, [now], None);
    forall v | v in done && IsStartupOf(table, owner, v) ensures Spawned(pre, post, v, table[v], now) {
      StaysSpawned(pre, mid, post, v, table[v], now);
    }
  }

  /** One turn of the loop: a startup workflow gets its job. */
  method SpawnOne(table: Table, jobs: JobTable, owner: nat, now: Time, w: nat, created: seq<nat>, ghost pre: Rows,
                  ghost done: set<nat>)
    returns (created': seq<nat>)
    requires jobs.Valid() && w in table && table[w].owner == owner && table[w].enabled && w !in done
    requires SpawnedUpTo(table, pre, jobs.rows, owner, now, done) && CreatedIds(pre, jobs.rows, created)
    modifies jobs
    ensures jobs.Valid()
    ensures SpawnedUpTo(table, pre, jobs.rows, owner, now, done + {w}) && CreatedIds(pre, jobs.rows, created')
  {
    if !table[w].trigger.Startup? {
      return created;
    }
    SpawnedOneMore(table, pre, jobs.rows, owner, now, done, w, jobs.nextId);
    OneCreated(pre, jobs.rows, NewPending(owner, w, table[w].account, now, None), created, jobs.nextId);
    var id := jobs.CreatePending(owner, w, table[w].account, now, None);
    created' := created + [id];
  }

  lemma OneCreated(pre: Rows, mid: Rows, job: Job, created: seq<nat>, id: nat)
    requires CreatedIds(pre, mid, created) && (forall x :: x in pre ==> x in mid) && forall x :: x in mid ==> x < id
    ensures CreatedIds(pre, mid[id := job], created + [id])
  {
    assert mid[id := job] == mid + map[id := job];
    CreatedGrow(pre, mid, map[id := job], created, id, [id]);
  }

  /** The listing misses no startup workflow. */
  lemma ListingSuffices(table: Table, workflows: seq<nat>, pre: Rows, rows: Rows, owner: nat, now: Time)
    requires forall w :: w in table && table[w].owner == owner && table[w].enabled ==> w in workflows
    requires SpawnedUpTo(table, pre, rows, owner, now, Elements(workflows))
    ensures SpawnedUpTo(table, pre, rows, owner, now, table.Keys)
  {
    assert forall w :: IsStartupOf(table, owner, w) ==> w in Elements(workflows);
  }

  /** `spawn_startup_jobs`: one job for each enabled startup workflow, on the first call only. */
  method SpawnStartupJobs(tracker: StartupTracker, table: Table, bound: nat, jobs: JobTable, owner: nat, now: Time)
    returns (created: seq<nat>, alreadyFired: bool)
    requires jobs.Valid() && forall w :: w in table ==> w < bound
    modifies tracker, jobs
    ensures jobs.Valid() && tracker.fired && alreadyFired == old(tracker.fired)
    ensures alreadyFired ==> jobs.rows == old(jobs.rows) && created == []
    ensures !alreadyFired ==>
              && SpawnedUpTo(table, old(jobs.rows), jobs.rows, owner, now, table.Keys)
              && CreatedIds(old(jobs.rows), jobs.rows, created)
  {
    var first := tracker.Consume();
    if !first {
      return [], true;
    }
    created, alreadyFired := [], false;
    var workflows := Listing(table, bound, (row: Row) => row.owner == owner && row.enabled);
    ghost var pre := jobs.rows;
    for k := 0 to |workflows|
      invariant jobs.Valid() && tracker.fired && CreatedIds(pre, jobs.rows, created)
      invariant SpawnedUpTo(table, pre, jobs.rows, owner, now, Elements(workflows[..k]))
    {
      var w := workflows[k];
      assert w in workflows;
      assert w !in workflows[..k];
      created := SpawnOne(table, jobs, owner, now, w, created, pre, Elements(workflows[..k]));
      assert Elements(workflows[..k]) + {w} == Elements(workflows[..k + 1]) by {
        assert workflows[..k + 1] == workflows[..k] + [w];
      }
    }
    assert workflows[..|workflows|] == workflows;
    ListingSuffices(table, workflows, pre, jobs.rows, owner, now);
  }
}
