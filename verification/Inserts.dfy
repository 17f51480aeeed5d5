// Inserting pending jobs: the shape every creating transaction shares.
module Inserts {
  import opened Base
  import opened Jobs
  import opened Workflows

  function EnabledOf(table: Table, owner: nat): Table {
    map w | w in table && table[w].owner == owner && table[w].enabled :: table[w]
  }

  /** Every insert of pending jobs: old rows stay, each new one is for a workflow that was read. */
  ghost predicate CreatesFor(jobs: Rows, jobs': Rows, read: Table, owner: nat) {
    && (forall id :: id in jobs ==> id in jobs' && jobs'[id] == jobs[id])
    && (forall id :: id in jobs' && id !in jobs ==>
          var w := jobs'[id].workflow;
          w in read && jobs'[id] == NewPending(owner, w, read[w].account, jobs'[id].fireAt, jobs'[id].expansionDate))
  }

  /** Consecutive new ids, one pending job for each slot. */
  function Batch(first: nat, owner: nat, w: nat, account: nat, slots: seq<Time>, date: Option<int>): (batch: Rows)
    ensures forall id :: id in batch <==> first <= id < first + |slots|
    ensures forall id :: id in batch ==> batch[id] == NewPending(owner, w, account, slots[id - first], date)
  {
    if slots == [] then map[]
    else
      var n := |slots| - 1;
      Batch(first, owner, w, account, slots[..n], date)[first + n := NewPending(owner, w, account, slots[n], date)]
  }

  lemma BatchGrows(rows: Rows, first: nat, owner: nat, w: nat, account: nat, slots: seq<Time>, date: Option<int>,
                   t: Time)
    ensures rows + Batch(first, owner, w, account, slots + [t], date)
         == (rows + Batch(first, owner, w, account, slots, date))
              [first + |slots| := NewPending(owner, w, account, t, date)]
  {
    assert (slots + [t])[..|slots|] == slots;
  }

  predicate NoNewJobs(rows: Rows, rows': Rows, w: nat) {
    forall id :: id in rows' && id !in rows ==> rows'[id].workflow != w
  }

  /** The new jobs of workflow `w`: one per slot, on consecutive ids, and no others. */
  ghost predicate Filled(rows: Rows, rows': Rows, w: nat, row: Row, first: nat, slots: seq<Time>, date: Option<int>) {
    && (forall id :: id in rows' && id !in rows && rows'[id].workflow == w <==> first <= id < first + |slots|)
    && (forall id :: first <= id < first + |slots| ==>
          id in rows' && rows'[id] == NewPending(row.owner, w, row.account, slots[id - first], date))
  }

  lemma BatchCreates(pre: Rows, mid: Rows, w: nat, row: Row, first: nat, slots: seq<Time>, date: Option<int>,
                     read: Table)
    requires w in read && read[w] == row && CreatesFor(pre, mid, read, row.owner)
    requires forall id :: id in mid ==> id < first
    ensures CreatesFor(pre, mid + Batch(first, row.owner, w, row.account, slots, date), read, row.owner)
  {
  }

  /** Inserting a batch fills in its workflow and no other. */
  lemma BatchFills(pre: Rows, mid: Rows, w: nat, row: Row, first: nat, slots: seq<Time>, date: Option<int>)
    requires (forall id :: id in pre ==> id in mid) && NoNewJobs(pre, mid, w) && forall id :: id in mid ==> id < first
    ensures var post := mid + Batch(first, row.owner, w, row.account, slots, date);
            && Filled(pre, post, w, row, first, slots, date)
            && forall v :: v != w && NoNewJobs(pre, mid, v) ==> NoNewJobs(pre, post, v)
  {
  }

  /** Rows for another workflow do not disturb one that has been filled in. */
  lemma StaysFilled(pre: Rows, mid: Rows, post: Rows, v: nat, row: Row, first: nat, slots: seq<Time>, date: Option<int>)
    requires Filled(pre, mid, v, row, first, slots, date) && NoNewJobs(mid, post, v)
    requires forall id :: id in mid ==> id in post && post[id] == mid[id]
    ensures Filled(pre, post, v, row, first, slots, date)
  {
  }

  /** Insert the next slot after those already inserted over `pre`. */
  method InsertSlot(jobs: JobTable, w: nat, owner: nat, account: nat, t: Time, date: Option<int>,
                    ghost pre: Rows, ghost first: nat, ghost slots: seq<Time>)
    returns (id: nat)
    requires jobs.Valid() && jobs.nextId == first + |slots|
    requires jobs.rows == pre + Batch(first, owner, w, account, slots, date)
    modifies jobs
    ensures jobs.Valid() && jobs.nextId == first + |slots| + 1 && id == first + |slots|
    ensures jobs.rows == pre + Batch(first, owner, w, account, slots + [t], date)
  {
    id := jobs.CreatePending(owner, w, account, t, date);
    BatchGrows(pre, first, owner, w, account, slots, date, t);
  }

  predicate Consecutive(ids: seq<nat>, first: nat) {
    forall i :: 0 <= i < |ids| ==> ids[i] == first + i
  }

  /** The report lists exactly the inserted ids, in order. */
  ghost predicate CreatedIds(pre: Rows, rows: Rows, created: seq<nat>) {
    Increasing(created) && forall id :: id in created <==> id in rows && id !in pre
  }

  lemma CreatedGrow(pre: Rows, mid: Rows, batch: Rows, created: seq<nat>, first: nat, ids: seq<nat>)
    requires CreatedIds(pre, mid, created)
    requires (forall id :: id in pre ==> id in mid) && forall id :: id in mid ==> id < first
    requires Consecutive(ids, first)
    requires forall id :: id in batch <==> first <= id < first + |ids|
    ensures CreatedIds(pre, mid + batch, created + ids)
  {
    forall i | 0 <= i < |created| ensures created[i] < first {
      assert created[i] in created;
    }
    forall id: nat | id in batch ensures id in ids {
      assert ids[id - first] == id;
    }
  }
}
