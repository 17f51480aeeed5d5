// Jobs and workflows have no foreign key between them. This machine interleaves
// every transaction that touches either table and says exactly when a pending
// job can outlive its workflow.
//
// A creating transaction is split in two, the read of the workflows and the
// insert of the jobs, because whether the two are isolated from each other is
// up to the database.
module Referential {
  import opened Base
  import opened Jobs
  import opened Workflows
  import opened Sync
  import opened Inserts

  datatype Reader = Reader(owner: nat, read: Table)

  datatype State = State(table: Table, next: nat, jobs: Rows, open: map<nat, Reader>)

  datatype Step =
    | Read(t: nat, owner: nat)
    | Insert(t: nat, jobs: Rows)
    | Claimed(owner: nat, now: Time, batch: nat, window: real, claimed: seq<nat>, jobs: Rows)
    | InsertRunning(id: nat, owner: nat, workflow: nat, account: nat, now: Time)
    | CancelOne(id: nat, now: Time)
    | MarkedFailed(id: nat, reason: string, run: Option<nat>, now: Time)
    | MarkedSucceeded(id: nat, run: Option<nat>, now: Time)
    | SetEnabled(w: nat, enabled: bool)
    | Bump(w: nat)
    | Synced(owner: nat, valid: map<string, Workflow>, invalid: set<string>, gone: seq<nat>, now: Time,
             table: Table, next: nat)

  ghost predicate Enabled(s: State, step: Step) {
    match step
    case Read(t, owner) => t !in s.open
    case Insert(t, jobs) => t in s.open && CreatesFor(s.jobs, jobs, s.open[t].read, s.open[t].owner)
    case Claimed(owner, now, batch, window, claimed, jobs) => IsClaim(s.jobs, owner, now, batch, window, claimed, jobs)
    case InsertRunning(id, owner, workflow, account, now) => id !in s.jobs
    case CancelOne(id, now) => id in s.jobs && s.jobs[id].status == Pending
    case MarkedFailed(id, reason, run, now) => id in s.jobs
    case MarkedSucceeded(id, run, now) => id in s.jobs
    case SetEnabled(w, enabled) => w in s.table
    case Bump(w) => w in s.table
    case Synced(owner, valid, invalid, gone, now, table, next) =>
      && Reconciled(s.table, s.next, table, owner, valid, invalid) && next >= s.next
      && (forall id :: id in table ==> id < next)
      && (forall id :: id in gone <==> Unwanted(s.table, owner, valid, invalid, id))
  }

  function Apply(s: State, step: Step): State
    requires Enabled(s, step)
  {
    match step
    case Read(t, owner) => s.(open := s.open[t := Reader(owner, EnabledOf(s.table, owner))])
    case Insert(t, jobs) => s.(jobs := jobs, open := s.open - {t})
    case Claimed(owner, now, batch, window, claimed, jobs) => s.(jobs := jobs)
    case InsertRunning(id, owner, workflow, account, now) =>
      s.(jobs := s.jobs[id := NewRunning(owner, workflow, account, now)])
    case CancelOne(id, now) => s.(jobs := s.jobs[id := Cancel(s.jobs[id], now)])
    case MarkedFailed(id, reason, run, now) => s.(jobs := s.jobs[id := Fail(s.jobs[id], reason, run, now)])
    case MarkedSucceeded(id, run, now) => s.(jobs := s.jobs[id := Succeed(s.jobs[id], run, now)])
    case SetEnabled(w, enabled) => s.(table := s.table[w := s.table[w].(enabled := enabled)])
    case Bump(w) => s.(table := s.table[w := s.table[w].(rrCounter := s.table[w].rrCounter + 1)])
    case Synced(owner, valid, invalid, gone, now, table, next) =>
      s.(table := table, next := next, jobs := s.jobs + CancelWrites(s.jobs, Elements(gone), owner, now))
  }

  predicate HasWorkflow(table: Table, job: Job) {
    job.workflow in table && table[job.workflow].owner == job.owner
  }

  predicate NoOrphans(s: State) {
    forall id :: id in s.jobs && s.jobs[id].status == Pending ==> HasWorkflow(s.table, s.jobs[id])
  }

  /** An insert whose workflows are all still there. */
  predicate Undisturbed(s: State, step: Step) {
    step.Insert? ==> forall id :: id in step.jobs && id !in s.jobs ==> HasWorkflow(s.table, step.jobs[id])
  }

  ghost predicate IsRun(states: seq<State>, steps: seq<Step>) {
    && |states| == |steps| + 1 && NoOrphans(states[0]) && states[0].open == map[]
    && (forall w :: w in states[0].table ==> w < states[0].next)
    && forall i :: 0 <= i < |steps| ==> Enabled(states[i], steps[i]) && states[i + 1] == Apply(states[i], steps[i])
  }

  /** A sync removes a workflow only together with its pending jobs. */
  lemma SyncLeavesNoOrphans(s: State, step: Step)
    requires step.Synced? && Enabled(s, step) && NoOrphans(s)
    ensures NoOrphans(Apply(s, step))
  {
    var s' := Apply(s, step);
    forall id | id in s'.jobs && s'.jobs[id].status == Pending ensures HasWorkflow(s'.table, s'.jobs[id]) {
      var w := s.jobs[id].workflow;
      assert id !in PendingOf(s.jobs, Elements(step.gone), step.owner);
      assert w in Elements(step.gone) <==> w in step.gone;
      assert !Unwanted(s.table, step.owner, step.valid, step.invalid, w);
    }
  }

  lemma StepLeavesNoOrphans(s: State, step: Step)
    requires Enabled(s, step) && NoOrphans(s)
    ensures NoOrphans(Apply(s, step)) <==> Undisturbed(s, step)
  {
    var s' := Apply(s, step);
    if step.Synced? {
      SyncLeavesNoOrphans(s, step);
    } else if step.Insert? && NoOrphans(s') {
      forall id | id in step.jobs && id !in s.jobs ensures HasWorkflow(s.table, step.jobs[id]) {
        assert s'.jobs[id].status == Pending;
      }
    }
  }

  lemma {:induction false} UndisturbedExactly(states: seq<State>, steps: seq<Step>)
    requires IsRun(states, steps)
    ensures (forall i :: 0 <= i < |states| ==> NoOrphans(states[i]))
       <==> (forall i :: 0 <= i < |steps| ==> Undisturbed(states[i], steps[i]))
  {
    if steps != [] {
      var n := |steps| - 1;
      var before, earlier := states[..n + 1], steps[..n];
      UndisturbedExactly(before, earlier);
      assert forall i :: 0 <= i <= n ==> before[i] == states[i];
      assert forall i :: 0 <= i < n ==> earlier[i] == steps[i];
      if NoOrphans(states[n]) {
        StepLeavesNoOrphans(states[n], steps[n]);
      }
      assert (forall i :: 0 <= i < |states| ==> NoOrphans(states[i]))
        <==> (forall i :: 0 <= i < |before| ==> NoOrphans(before[i])) && NoOrphans(states[n + 1]);
      assert (forall i :: 0 <= i < |steps| ==> Undisturbed(states[i], steps[i]))
        <==> (forall i :: 0 <= i < |earlier| ==> Undisturbed(before[i], earlier[i]))
             && Undisturbed(states[n], steps[n]);
      assert before[n] == states[n];
    }
  }

  // ---- overtaken by a delete

  predicate Deletes(step: Step, w: nat) {
    step.Synced? && w in step.gone
  }

  /** Step `r` is the read that the insert at `i` belongs to. */
  predicate ReadOf(steps: seq<Step>, r: nat, i: nat) {
    && r < i < |steps| && steps[r].Read? && steps[i].Insert? && steps[r].t == steps[i].t
    && forall k :: r < k < i ==> !(steps[k].Insert? && steps[k].t == steps[i].t)
  }

  predicate InsertsFor(s: State, step: Step, w: nat) {
    step.Insert? && exists id :: id in step.jobs && id !in s.jobs && step.jobs[id].workflow == w
  }

  /** Between its read and its insert, a sync deleted a workflow that it inserts a job for. */
  ghost predicate Overtaken(states: seq<State>, steps: seq<Step>, r: nat, i: nat)
    requires |states| == |steps| + 1 && ReadOf(steps, r, i)
  {
    exists k, w: nat :: r < k < i && Deletes(steps[k], w) && InsertsFor(states[i], steps[i], w)
  }

  /** Ids below `next` were given out before; the row keeps its owner as long as it lives. */
  predicate Known(s: State, w: nat, owner: nat) {
    w < s.next && (w in s.table ==> s.table[w].owner == owner)
  }

  /** A workflow, once known, disappears exactly with a sync that lists it, and does not come back. */
  lemma StepOnWorkflow(s: State, step: Step, w: nat, owner: nat)
    requires Enabled(s, step) && Known(s, w, owner)
    ensures var s' := Apply(s, step);
            Known(s', w, owner) && (w in s'.table <==> w in s.table && !Deletes(step, w))
  {
    if step.Synced? {
      assert w in step.gone <==> Unwanted(s.table, step.owner, step.valid, step.invalid, w);
    }
  }

  lemma {:induction false} IdsStayBelow(states: seq<State>, steps: seq<Step>, i: nat)
    requires IsRun(states, steps) && i < |states|
    ensures forall w :: w in states[i].table ==> w < states[i].next
  {
    if i > 0 {
      IdsStayBelow(states, steps, i - 1);
      assert Enabled(states[i - 1], steps[i - 1]) && states[i] == Apply(states[i - 1], steps[i - 1]);
    }
  }

  ghost predicate DeletedBetween(steps: seq<Step>, r: nat, i: nat, w: nat)
    requires r < i <= |steps|
  {
    exists k :: r < k < i && Deletes(steps[k], w)
  }

  lemma {:induction false} SurvivesUnlessDeleted(states: seq<State>, steps: seq<Step>, r: nat, i: nat, w: nat,
                                                 owner: nat)
    requires IsRun(states, steps) && r < i < |states|
    requires Known(states[r + 1], w, owner) && w in states[r + 1].table
    ensures Known(states[i], w, owner) && (w in states[i].table <==> !DeletedBetween(steps, r, i, w))
    decreases i
  {
    if r + 1 < i {
      SurvivesUnlessDeleted(states, steps, r, i - 1, w, owner);
      StepOnWorkflow(states[i - 1], steps[i - 1], w, owner);
      assert DeletedBetween(steps, r, i, w) <==> DeletedBetween(steps, r, i - 1, w) || Deletes(steps[i - 1], w);
    }
  }

  /** A reader keeps what it read until it inserts. */
  lemma {:induction false} ReaderStays(states: seq<State>, steps: seq<Step>, r: nat, i: nat, t: nat)
    requires IsRun(states, steps) && r < i < |states| && steps[r].Read? && steps[r].t == t
    requires forall k :: r < k < i ==> !(steps[k].Insert? && steps[k].t == t)
    ensures t in states[i].open
    ensures states[i].open[t] == Reader(steps[r].owner, EnabledOf(states[r].table, steps[r].owner))
    decreases i
  {
    assert Enabled(states[i - 1], steps[i - 1]) && states[i] == Apply(states[i - 1], steps[i - 1]);
    if r + 1 < i {
      ReaderStays(states, steps, r, i - 1, t);
    }
  }

  /** Every open transaction has read. */
  lemma {:induction false} OpenWasRead(states: seq<State>, steps: seq<Step>, i: nat, t: nat) returns (r: nat)
    requires IsRun(states, steps) && i < |states| && t in states[i].open
    ensures r < i && steps[r].Read? && steps[r].t == t
    ensures forall k :: r < k < i ==> !(steps[k].Insert? && steps[k].t == t)
  {
    assert i > 0;
    assert Enabled(states[i - 1], steps[i - 1]) && states[i] == Apply(states[i - 1], steps[i - 1]);
    if steps[i - 1].Read? && steps[i - 1].t == t {
      r := i - 1;
    } else {
      r := OpenWasRead(states, steps, i - 1, t);
    }
  }

  /** For one inserted job: its workflow is there exactly if no sync deleted it since the read. */
  lemma InsertedWorkflowSurvives(states: seq<State>, steps: seq<Step>, r: nat, i: nat, id: nat)
    requires IsRun(states, steps) && ReadOf(steps, r, i) && id in steps[i].jobs && id !in states[i].jobs
    ensures HasWorkflow(states[i].table, steps[i].jobs[id]) <==>
              !DeletedBetween(steps, r, i, steps[i].jobs[id].workflow)
  {
    ReaderStays(states, steps, r, i, steps[i].t);
    IdsStayBelow(states, steps, r);
    var owner, w := steps[r].owner, steps[i].jobs[id].workflow;
    assert Enabled(states[r], steps[r]) && states[r + 1] == Apply(states[r], steps[r]);
    assert Enabled(states[i], steps[i]);
    assert w in states[i].open[steps[i].t].read && steps[i].jobs[id].owner == owner;
    SurvivesUnlessDeleted(states, steps, r, i, w, owner);
  }

  /** A job is inserted only for a workflow that was its owner's and enabled at the read, and for its account. */
  lemma InsertedWereEnabled(states: seq<State>, steps: seq<Step>, r: nat, i: nat, id: nat)
    requires IsRun(states, steps) && ReadOf(steps, r, i) && id in steps[i].jobs && id !in states[i].jobs
    ensures var table, job := states[r].table, steps[i].jobs[id];
            && job.workflow in table && table[job.workflow].owner == job.owner == steps[r].owner
            && table[job.workflow].enabled && job.account == table[job.workflow].account && job.status == Pending
  {
    ReaderStays(states, steps, r, i, steps[i].t);
    assert Enabled(states[i], steps[i]);
  }

  /** An insert finds all its workflows exactly when it has not been overtaken. */
  lemma OvertakenExactly(states: seq<State>, steps: seq<Step>, r: nat, i: nat)
    requires IsRun(states, steps) && ReadOf(steps, r, i)
    ensures Undisturbed(states[i], steps[i]) <==> !Overtaken(states, steps, r, i)
  {
    forall id | id in steps[i].jobs && id !in states[i].jobs
      ensures HasWorkflow(states[i].table, steps[i].jobs[id]) <==>
                !DeletedBetween(steps, r, i, steps[i].jobs[id].workflow)
    {
      InsertedWorkflowSurvives(states, steps, r, i, id);
    }
    if Overtaken(states, steps, r, i) {
      var k, w: nat :| r < k < i && Deletes(steps[k], w) && InsertsFor(states[i], steps[i], w);
      var id :| id in steps[i].jobs && id !in states[i].jobs && steps[i].jobs[id].workflow == w;
      assert DeletedBetween(steps, r, i, w);
    }
    if !Undisturbed(states[i], steps[i]) {
      var id :| id in steps[i].jobs && id !in states[i].jobs && !HasWorkflow(states[i].table, steps[i].jobs[id]);
      var w := steps[i].jobs[id].workflow;
      var k :| r < k < i && Deletes(steps[k], w);
      assert InsertsFor(states[i], steps[i], w);
    }
  }

  /**
   * No pending job is ever without its workflow exactly when, in the whole run,
   * no sync deletes a workflow between a transaction's read and its insert of a
   * job for that workflow.
   */
  lemma OrphansExactly(states: seq<State>, steps: seq<Step>)
    requires IsRun(states, steps)
    ensures (forall i :: 0 <= i < |states| ==> NoOrphans(states[i]))
       <==> (forall r: nat, i: nat :: ReadOf(steps, r, i) ==> !Overtaken(states, steps, r, i))
  {
    UndisturbedExactly(states, steps);
    forall r: nat, i: nat | ReadOf(steps, r, i)
      ensures Undisturbed(states[i], steps[i]) <==> !Overtaken(states, steps, r, i)
    {
      OvertakenExactly(states, steps, r, i);
    }
    forall i: nat | i < |steps| && steps[i].Insert? ensures exists r: nat :: ReadOf(steps, r, i) {
      assert Enabled(states[i], steps[i]);
      var r := OpenWasRead(states, steps, i, steps[i].t);
      assert ReadOf(steps, r, i);
    }
  }

  /** Each insert comes straight after its read: the creating transaction is isolated. */
  predicate Isolated(steps: seq<Step>) {
    forall i :: 0 <= i < |steps| && steps[i].Insert? ==> i > 0 && steps[i - 1].Read? && steps[i - 1].t == steps[i].t
  }

  /** With isolated transactions every pending job's workflow exists, under the job's owner, throughout. */
  lemma PendingJobsHaveWorkflows(states: seq<State>, steps: seq<Step>)
    requires IsRun(states, steps) && Isolated(steps)
    ensures forall i, id :: 0 <= i < |states| && id in states[i].jobs && states[i].jobs[id].status == Pending ==>
              var table, job := states[i].table, states[i].jobs[id];
              job.workflow in table && table[job.workflow].owner == job.owner
  {
    forall i: nat | i < |steps| ensures Undisturbed(states[i], steps[i]) {
      if steps[i].Insert? {
        assert ReadOf(steps, i - 1, i) && !Overtaken(states, steps, i - 1, i);
        OvertakenExactly(states, steps, i - 1, i);
      }
    }
    UndisturbedExactly(states, steps);
  }

  // ---- without isolation

  function Orphaned(): Workflow {
    Workflow("daily", 0, true, Startup, Plan([], [], false))
  }

  /** Read the workflow, let a sync delete it, insert the job. */
  lemma OvertakenInsertLeavesAnOrphan() returns (states: seq<State>, steps: seq<Step>)
    ensures IsRun(states, steps) && !NoOrphans(states[|steps|])
  {
    var row := NewRow(0, Yaml, Orphaned());
    var job := NewPending(0, 7, 0, 0.0, None);
    var s0 := State(map[7 := row], 8, map[], map[]);
    var s1 := s0.(open := map[3 := Reader(0, EnabledOf(s0.table, 0))]);
    var gone := [7];
    var sync := Synced(0, map[], {}, gone, 0.0, map[], 8);
    var s2 := State(map[], 8, map[], s1.open);
    assert Fate(row, 0, map[], {}) == None;
    assert Enabled(s1, sync) by {
      assert forall id: nat :: id in gone <==> Unwanted(s1.table, 0, map[], {}, id);
    }
    assert s1.jobs + CancelWrites(s1.jobs, Elements(gone), 0, 0.0) == map[];
    var insert := Insert(3, map[0 := job]);
    assert 7 in s2.open[3].read;
    assert Enabled(s2, insert);
    var s3 := Apply(s2, insert);
    states, steps := [s0, s1, s2, s3], [Read(3, 0), sync, insert];
    assert 0 in s3.jobs && s3.jobs[0].status == Pending && 7 !in s3.table;
  }
}
