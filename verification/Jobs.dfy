// The jobs table and the statements the scheduler runs on it.
//
// Every UPDATE is split into the set of rows its WHERE clause selects and the
// change it makes to one row, so that the transaction model in `JobProtocol` can
// stage the same writes that `JobTable` applies directly.
module Jobs {
  import opened Base

  type Time = real // instants and durations, in seconds

  datatype Status = Pending | Running | Succeeded | Failed | Skipped | Canceled

  datatype Job = Job(
    owner: nat,
    workflow: nat,
    account: nat,
    fireAt: Time,
    status: Status,
    startedAt: Option<Time>,
    finishedAt: Option<Time>,
    reason: Option<string>,
    run: Option<nat>,
    expansionDate: Option<int>)

  type Rows = map<nat, Job>

  predicate Terminal(s: Status) {
    s.Succeeded? || s.Failed? || s.Skipped? || s.Canceled?
  }

  /** The status changes the service makes to a stored job. */
  predicate Edge(a: Status, b: Status) {
    || (a == Pending && (b == Running || b == Skipped || b == Canceled))
    || (a == Running && (b == Succeeded || b == Failed))
  }

  /** Zero or more edges: there is no cycle, so two suffice. */
  predicate Leads(a: Status, b: Status) {
    a == b || Edge(a, b) || (a == Pending && (b == Succeeded || b == Failed))
  }

  /** The columns no statement ever writes after the insert. */
  predicate SameIdentity(a: Job, b: Job) {
    && a.owner == b.owner && a.workflow == b.workflow && a.account == b.account
    && a.fireAt == b.fireAt && a.expansionDate == b.expansionDate
  }

  /** What the time stamps and the reason column say about the status. */
  predicate WellStamped(j: Job) {
    match j.status
    case Pending => j.startedAt == None && j.finishedAt == None && j.reason == None && j.run == None
    case Running => j.startedAt.Some? && j.finishedAt == None && j.reason == None && j.run == None
    case Succeeded => j.startedAt.Some? && j.finishedAt.Some? && j.reason == None
    case Failed => j.startedAt.Some? && j.finishedAt.Some? && j.reason.Some?
    case Skipped => j.startedAt == None && j.finishedAt.Some? && j.reason == Some("missed_window") && j.run == None
    case Canceled => j.startedAt == None && j.finishedAt.Some? && j.reason == None && j.run == None
  }

  function NewPending(owner: nat, workflow: nat, account: nat, fireAt: Time, date: Option<int>): Job {
    Job(owner, workflow, account, fireAt, Pending, None, None, None, None, date)
  }

  function NewRunning(owner: nat, workflow: nat, account: nat, now: Time): Job {
    Job(owner, workflow, account, now, Running, Some(now), None, None, None, None)
  }

  // ---- rows selected by each WHERE clause

  function TooOld(rows: Rows, owner: nat, cutoff: Time): set<nat> {
    set id | id in rows && rows[id].owner == owner && rows[id].status == Pending && rows[id].fireAt < cutoff
  }

  function Due(rows: Rows, owner: nat, now: Time, cutoff: Time): set<nat> {
    set id | id in rows && rows[id].owner == owner && rows[id].status == Pending
             && rows[id].fireAt <= now && rows[id].fireAt >= cutoff
  }

  function StillPending(rows: Rows, candidates: seq<nat>): set<nat> {
    set id | id in candidates && id in rows && rows[id].status == Pending
  }

  function PendingOf(rows: Rows, workflows: set<nat>, owner: nat): set<nat> {
    set id | id in rows && rows[id].owner == owner && rows[id].workflow in workflows && rows[id].status == Pending
  }

  // ---- changes to one row

  function Skip(j: Job, now: Time): Job {
    j.(status := Skipped, reason := Some("missed_window"), finishedAt := Some(now))
  }

  function Claim(j: Job, now: Time): Job {
    j.(status := Running, startedAt := Some(now))
  }

  function Cancel(j: Job, now: Time): Job {
    j.(status := Canceled, finishedAt := Some(now))
  }

  function Fail(j: Job, reason: string, run: Option<nat>, now: Time): Job {
    j.(status := Failed, reason := Some(reason), finishedAt := Some(now), run := if run.Some? then run else j.run)
  }

  function Succeed(j: Job, run: Option<nat>, now: Time): Job {
    j.(status := Succeeded, finishedAt := Some(now), run := if run.Some? then run else j.run)
  }

  // ---- the writes of a statement, as a map laid over the table

  function SkipWrites(rows: Rows, owner: nat, cutoff: Time, now: Time): Rows {
    map id | id in TooOld(rows, owner, cutoff) :: Skip(rows[id], now)
  }

  function ClaimWrites(rows: Rows, candidates: seq<nat>, now: Time): Rows {
    map id | id in StillPending(rows, candidates) :: Claim(rows[id], now)
  }

  function CancelWrites(rows: Rows, workflows: set<nat>, owner: nat, now: Time): Rows {
    map id | id in PendingOf(rows, workflows, owner) :: Cancel(rows[id], now)
  }

  /**
   * The meaning of the candidate query: distinct due rows, ordered by fire time,
   * as many as the limit allows, and none left out fires earlier than one taken.
   * Rows with equal fire times may come in any order.
   */
  ghost predicate IsCandidateList(rows: Rows, owner: nat, now: Time, cutoff: Time, limit: nat, ids: seq<nat>) {
    var due := Due(rows, owner, now, cutoff);
    && Distinct(ids)
    && (forall id :: id in ids ==> id in due)
    && |ids| == Min(limit, |due|)
    && (forall i, j :: 0 <= i < j < |ids| ==> FiresNoLater(rows, ids[i], ids[j]))
    && (forall id, i :: id in due && id !in ids && 0 <= i < |ids| ==> FiresNoLater(rows, ids[i], id))
  }

  predicate FiresNoLater(rows: Rows, a: nat, b: nat) {
    a in rows && b in rows && rows[a].fireAt <= rows[b].fireAt
  }

  /** One run of `claim_due_jobs` takes `rows` to `rows'`, claiming what it selected. */
  ghost predicate IsClaim(rows: Rows, owner: nat, now: Time, batch: nat, window: real, claimed: seq<nat>, rows': Rows) {
    var kept := rows + SkipWrites(rows, owner, now - window, now);
    && IsCandidateList(kept, owner, now, now - window, batch, claimed)
    && rows' == kept + ClaimWrites(kept, claimed, now)
  }

  /** The same ids, each once, in any order. */
  predicate SameIds(a: seq<nat>, b: seq<nat>) {
    Distinct(a) && Distinct(b) && (forall id :: id in a ==> id in b) && (forall id :: id in b ==> id in a)
  }

  /** The rows an UPDATE touched, in whatever order the database returns them. */
  method Returning(hit: set<nat>) returns (order: seq<nat>)
    ensures Distinct(order) && forall id :: id in order <==> id in hit
  {
    order := [];
    var left := hit;
    while left != {}
      invariant left <= hit && Distinct(order)
      invariant forall id :: id in order <==> id in hit && id !in left
      decreases left
    {
      var id :| id in left;
      order := order + [id];
      left := left - {id};
    }
  }

  lemma {:induction false} EarliestExists(rows: Rows, ids: set<nat>) returns (least: nat)
    requires ids != {} && ids <= rows.Keys
    ensures least in ids && forall other :: other in ids ==> FiresNoLater(rows, least, other)
  {
    var id :| id in ids;
    if ids == {id} {
      least := id;
    } else {
      var rest := EarliestExists(rows, ids - {id});
      least := if rows[id].fireAt <= rows[rest].fireAt then id else rest;
      forall other | other in ids ensures FiresNoLater(rows, least, other) {
        assert other == id || other in ids - {id};
      }
    }
  }

  /** Inside one transaction the double-check lets every selected row through. */
  lemma CandidatesAreFlipped(rows: Rows, owner: nat, now: Time, cutoff: Time, limit: nat, candidates: seq<nat>)
    requires IsCandidateList(rows, owner, now, cutoff, limit, candidates)
    ensures forall id :: id in StillPending(rows, candidates) <==> id in candidates
    ensures var rows' := rows + ClaimWrites(rows, candidates, now);
            && (forall id :: id in rows' <==> id in rows)
            && (forall id :: id in candidates ==> rows'[id] == Claim(rows[id], now))
            && (forall id :: id in rows && id !in candidates ==> rows'[id] == rows[id])
  {
    assert forall id :: id in candidates ==> id in Due(rows, owner, now, cutoff);
  }

  /** A due row is left out only of a full list that fires no later. */
  lemma LeftOut(rows: Rows, owner: nat, now: Time, cutoff: Time, limit: nat, ids: seq<nat>, id: nat)
    requires IsCandidateList(rows, owner, now, cutoff, limit, ids) && id !in ids && id in rows
    requires rows[id].owner == owner && rows[id].status == Pending && cutoff <= rows[id].fireAt <= now
    ensures |ids| == limit
    ensures forall other :: other in ids ==> other in rows && rows[other].fireAt <= rows[id].fireAt
  {
    var due := Due(rows, owner, now, cutoff);
    DistinctSize(ids);
    assert Elements(ids) <= due - {id};
    SubsetSize(Elements(ids), due - {id});
    forall other | other in ids ensures other in rows && rows[other].fireAt <= rows[id].fireAt {
      var i :| 0 <= i < |ids| && ids[i] == other;
      assert FiresNoLater(rows, ids[i], id);
    }
  }

  /** Read off the columns: what a candidate list holds, and what it may leave out. */
  lemma CandidatesAreDue(rows: Rows, owner: nat, now: Time, cutoff: Time, limit: nat, ids: seq<nat>)
    requires IsCandidateList(rows, owner, now, cutoff, limit, ids)
    ensures |ids| <= limit
    ensures forall id :: id in ids ==>
              id in rows && rows[id].owner == owner && rows[id].status == Pending && cutoff <= rows[id].fireAt <= now
    ensures forall i, j :: 0 <= i < j < |ids| ==> rows[ids[i]].fireAt <= rows[ids[j]].fireAt
    ensures forall id :: id in rows && rows[id].owner == owner && rows[id].status == Pending
                         && cutoff <= rows[id].fireAt <= now && id !in ids ==>
              |ids| == limit && forall other :: other in ids ==> rows[other].fireAt <= rows[id].fireAt
  {
    forall id | id in Due(rows, owner, now, cutoff) && id !in ids
      ensures |ids| == limit && forall other :: other in ids ==> rows[other].fireAt <= rows[id].fireAt
    {
      LeftOut(rows, owner, now, cutoff, limit, ids, id);
    }
    forall i, j | 0 <= i < j < |ids| ensures rows[ids[i]].fireAt <= rows[ids[j]].fireAt {
      assert FiresNoLater(rows, ids[i], ids[j]);
    }
  }

  /**
   * Read off the columns, what a claim does to the table: the claimed rows were
   * the owner's, pending and due inside the window, the too-old ones are retired,
   * and nothing else changes; a due row is passed over only by a full batch that
   * fires no later.
   */
  lemma ClaimChangesRows(rows: Rows, owner: nat, now: Time, batch: nat, window: real, claimed: seq<nat>, rows': Rows)
    requires IsClaim(rows, owner, now, batch, window, claimed, rows')
    ensures rows'.Keys == rows.Keys && Distinct(claimed) && |claimed| <= batch
    ensures forall id :: id in claimed ==>
              && id in rows && rows[id].owner == owner && rows[id].status == Pending
              && now - window <= rows[id].fireAt <= now
              && rows'[id] == rows[id].(status := Running, startedAt := Some(now))
    ensures forall id :: id in rows && id !in claimed ==>
              rows'[id] == if rows[id].owner == owner && rows[id].status == Pending && rows[id].fireAt < now - window
                           then rows[id].(status := Skipped, reason := Some("missed_window"), finishedAt := Some(now))
                           else rows[id]
    ensures forall id :: id in rows && rows[id].owner == owner && rows[id].status == Pending
                         && now - window <= rows[id].fireAt <= now && id !in claimed ==>
              |claimed| == batch && forall other :: other in claimed ==> rows[other].fireAt <= rows[id].fireAt
  {
    ClaimedWereDue(rows, owner, now, batch, window, claimed, rows');
    UnclaimedRows(rows, owner, now, batch, window, claimed, rows');
    forall id | id in rows && rows[id].owner == owner && rows[id].status == Pending
                && now - window <= rows[id].fireAt <= now && id !in claimed
      ensures |claimed| == batch && forall other :: other in claimed ==> rows[other].fireAt <= rows[id].fireAt
    {
      PassedOver(rows, owner, now, batch, window, claimed, rows', id);
    }
  }

  lemma ClaimedWereDue(rows: Rows, owner: nat, now: Time, batch: nat, window: real, claimed: seq<nat>, rows': Rows)
    requires IsClaim(rows, owner, now, batch, window, claimed, rows')
    ensures rows'.Keys == rows.Keys && |claimed| <= batch
    ensures forall id :: id in claimed ==>
              && id in rows && rows[id].owner == owner && rows[id].status == Pending
              && now - window <= rows[id].fireAt <= now
              && rows'[id] == rows[id].(status := Running, startedAt := Some(now))
  {
    var kept := rows + SkipWrites(rows, owner, now - window, now);
    SkipChangesRows(rows, owner, now - window, now);
    CandidatesAreTaken(kept, owner, now, now - window, batch, claimed);
    forall id | id in claimed ensures id in rows && kept[id] == rows[id] {
      assert kept[id].status == Pending;
    }
  }

  lemma CandidatesAreTaken(rows: Rows, owner: nat, now: Time, cutoff: Time, limit: nat, ids: seq<nat>)
    requires IsCandidateList(rows, owner, now, cutoff, limit, ids)
    ensures var rows' := rows + ClaimWrites(rows, ids, now);
            && rows'.Keys == rows.Keys && |ids| <= limit
            && forall id :: id in ids ==>
                 && id in rows && rows[id].owner == owner && rows[id].status == Pending
                 && cutoff <= rows[id].fireAt <= now
                 && rows'[id] == rows[id].(status := Running, startedAt := Some(now))
  {
    CandidatesAreDue(rows, owner, now, cutoff, limit, ids);
    CandidatesAreFlipped(rows, owner, now, cutoff, limit, ids);
  }

  lemma UnclaimedRows(rows: Rows, owner: nat, now: Time, batch: nat, window: real, claimed: seq<nat>, rows': Rows)
    requires IsClaim(rows, owner, now, batch, window, claimed, rows')
    ensures rows'.Keys == rows.Keys
    ensures forall id :: id in rows && id !in claimed ==>
              rows'[id] == if rows[id].owner == owner && rows[id].status == Pending && rows[id].fireAt < now - window
                           then rows[id].(status := Skipped, reason := Some("missed_window"), finishedAt := Some(now))
                           else rows[id]
  {
    SkipChangesRows(rows, owner, now - window, now);
  }

  lemma PassedOver(rows: Rows, owner: nat, now: Time, batch: nat, window: real, claimed: seq<nat>, rows': Rows, id: nat)
    requires IsClaim(rows, owner, now, batch, window, claimed, rows')
    requires id in rows && rows[id].owner == owner && rows[id].status == Pending
    requires now - window <= rows[id].fireAt <= now && id !in claimed
    ensures |claimed| == batch && forall other :: other in claimed ==>
              other in rows && rows[other].fireAt <= rows[id].fireAt
  {
    var kept := rows + SkipWrites(rows, owner, now - window, now);
    SkipChangesRows(rows, owner, now - window, now);
    LeftOut(kept, owner, now, now - window, batch, claimed, id);
  }

  lemma SkipChangesRows(rows: Rows, owner: nat, cutoff: Time, now: Time)
    ensures var kept := rows + SkipWrites(rows, owner, cutoff, now);
            && kept.Keys == rows.Keys
            && forall id :: id in rows ==>
                 kept[id] == if rows[id].owner == owner && rows[id].status == Pending && rows[id].fireAt < cutoff
                             then rows[id].(status := Skipped, reason := Some("missed_window"), finishedAt := Some(now))
                             else rows[id]
  {
  }

  class JobTable {
    var rows: Rows
    var nextId: nat

    ghost predicate Valid() reads this {
      && (forall id :: id in rows ==> id < nextId)
      && (forall id :: id in rows ==> WellStamped(rows[id]))
    }

    constructor ()
      ensures Valid() && rows == map[] && nextId == 0
    {
      rows := map[];
      nextId := 0;
    }

    method CreatePending(owner: nat, workflow: nat, account: nat, fireAt: Time, date: Option<int>) returns (id: nat)
      requires Valid()
      modifies this
      ensures Valid() && id == old(nextId) && nextId == id + 1 && id !in old(rows)
      ensures rows ==
              old(rows)[id := Job(owner, workflow, account, fireAt, Pending, None, None, None, None, date)]
    {
      id := nextId;
      rows := rows[id := NewPending(owner, workflow, account, fireAt, date)];
      nextId := nextId + 1;
    }

    /** The row an immediate dispatch inserts: it is running from the start. */
    method CreateRunning(owner: nat, workflow: nat, account: nat, now: Time) returns (id: nat)
      requires Valid()
      modifies this
      ensures Valid() && id == old(nextId) && nextId == id + 1 && id !in old(rows)
      ensures rows ==
              old(rows)[id := Job(owner, workflow, account, now, Running, Some(now), None, None, None, None)]
    {
      id := nextId;
      rows := rows[id := NewRunning(owner, workflow, account, now)];
      nextId := nextId + 1;
    }

    method CancelPending(id: nat, owner: nat, now: Time) returns (flipped: bool)
      requires Valid()
      modifies this
      ensures Valid() && nextId == old(nextId)
      ensures flipped <==> id in old(rows) && old(rows)[id].owner == owner && old(rows)[id].status == Pending
      ensures rows == if flipped then old(rows)[id := old(rows)[id].(status := Canceled, finishedAt := Some(now))]
                      else old(rows)
    {
      flipped := id in rows && rows[id].owner == owner && rows[id].status == Pending;
      if flipped {
        rows := rows[id := Cancel(rows[id], now)];
      }
    }

    method CancelPendingForWorkflows(workflows: seq<nat>, owner: nat, now: Time) returns (count: nat)
      requires Valid()
      modifies this
      ensures Valid() && nextId == old(nextId)
      ensures rows == old(rows) + CancelWrites(old(rows), Elements(workflows), owner, now)
      ensures rows.Keys == old(rows).Keys && forall id :: id in rows ==>
                rows[id] == if old(rows)[id].owner == owner && old(rows)[id].status == Pending
                               && old(rows)[id].workflow in workflows
                            then old(rows)[id].(status := Canceled, finishedAt := Some(now)) else old(rows)[id]
      ensures count == |set id | id in old(rows) && old(rows)[id].owner == owner
                               && old(rows)[id].status == Pending && old(rows)[id].workflow in workflows|
    {
      var hit := PendingOf(rows, Elements(workflows), owner);
      count := |hit|;
      assert hit == set id | id in rows && rows[id].owner == owner && rows[id].status == Pending
                             && rows[id].workflow in workflows;
      if workflows == [] {
        assert hit == {};
        assert rows + CancelWrites(rows, Elements(workflows), owner, now) == rows;
        return;
      }
      rows := rows + CancelWrites(rows, Elements(workflows), owner, now);
    }

    /** The status column is not consulted: see `JobProtocol` for why that is safe. */
    method MarkFailed(id: nat, owner: nat, reason: string, run: Option<nat>, now: Time) returns (found: bool)
      modifies this
      ensures nextId == old(nextId)
      ensures found <==> id in old(rows) && old(rows)[id].owner == owner
      ensures rows == if found
                      then old(rows)[id := old(rows)[id].(status := Failed, reason := Some(reason),
                             finishedAt := Some(now), run := if run == None then old(rows)[id].run else run)]
                      else old(rows)
      ensures old(Valid()) && (found ==> old(rows)[id].status == Running) ==> Valid()
    {
      found := id in rows && rows[id].owner == owner;
      if found {
        rows := rows[id := Fail(rows[id], reason, run, now)];
      }
    }

    method MarkSucceeded(id: nat, owner: nat, run: Option<nat>, now: Time) returns (found: bool)
      modifies this
      ensures nextId == old(nextId)
      ensures found <==> id in old(rows) && old(rows)[id].owner == owner
      ensures rows == if found
                      then old(rows)[id := old(rows)[id].(status := Succeeded,
                             finishedAt := Some(now), run := if run == None then old(rows)[id].run else run)]
                      else old(rows)
      ensures old(Valid()) && (found ==> old(rows)[id].status == Running) ==> Valid()
    {
      found := id in rows && rows[id].owner == owner;
      if found {
        rows := rows[id := Succeed(rows[id], run, now)];
      }
    }

    /** ORDER BY fire_at LIMIT n, with ties broken arbitrarily. */
    method SelectCandidates(owner: nat, now: Time, cutoff: Time, limit: nat) returns (ids: seq<nat>)
      ensures IsCandidateList(rows, owner, now, cutoff, limit, ids)
      ensures forall id :: id in ids ==>
                id in rows && rows[id].owner == owner && rows[id].status == Pending && cutoff <= rows[id].fireAt <= now
    {
      var due := Due(rows, owner, now, cutoff);
      var left := due;
      ids := [];
      while left != {} && |ids| < limit
        invariant left <= due <= rows.Keys && |ids| <= limit && |due| == |ids| + |left|
        invariant forall id :: id in ids <==> id in due && id !in left
        invariant Distinct(ids)
        invariant forall i, j :: 0 <= i < j < |ids| ==> FiresNoLater(rows, ids[i], ids[j])
        invariant forall id, i :: id in left && 0 <= i < |ids| ==> FiresNoLater(rows, ids[i], id)
        decreases left
      {
        ghost var least := EarliestExists(rows, left);
        var id :| id in left && forall other :: other in left ==> FiresNoLater(rows, id, other);
        ids := ids + [id];
        left := left - {id};
      }
    }

    /**
     * Retire what is too old, then flip a batch of due rows to running. The
     * database returns the flipped rows in no particular order.
     */
    method ClaimDueJobs(owner: nat, now: Time, batch: nat, window: real)
      returns (claimed: seq<nat>, skipped: set<nat>, ghost candidates: seq<nat>)
      requires Valid()
      modifies this
      ensures Valid() && nextId == old(nextId)
      ensures skipped == TooOld(old(rows), owner, now - window)
      ensures IsClaim(old(rows), owner, now, batch, window, candidates, rows) && SameIds(claimed, candidates)
      ensures forall id :: id in skipped <==>
                id in old(rows) && old(rows)[id].owner == owner && old(rows)[id].status == Pending
                && old(rows)[id].fireAt < now - window
      ensures forall id :: id in claimed ==>
                && id in old(rows) && old(rows)[id].owner == owner && old(rows)[id].status == Pending
                && now - window <= old(rows)[id].fireAt <= now
                && id in rows && rows[id] == old(rows)[id].(status := Running, startedAt := Some(now))
    {
      var cutoff := now - window;
      skipped := TooOld(rows, owner, cutoff);
      rows := rows + SkipWrites(rows, owner, cutoff, now);
      var selected := SelectCandidates(owner, now, cutoff, batch);
      candidates := selected;
      if selected == [] {
        assert rows + ClaimWrites(rows, selected, now) == rows;
        return [], skipped, candidates;
      }
      var hit := StillPending(rows, selected);
      CandidatesAreFlipped(rows, owner, now, cutoff, batch, selected);
      rows := rows + ClaimWrites(rows, selected, now);
      claimed := Returning(hit);
      ClaimedWereDue(old(rows), owner, now, batch, window, selected, rows);
    }

    /** Zero exactly if no job of the workflow carries the date, which is what makes the expansion idempotent. */
    method CountForExpansion(workflow: nat, date: int) returns (count: nat)
      ensures count == 0 <==> forall id :: id in rows && rows[id].workflow == workflow ==>
                rows[id].expansionDate != Some(date)
      ensures count == |ExpandedOn(rows, workflow, date)|
    {
      var dated := ExpandedOn(rows, workflow, date);
      count := |dated|;
      assert forall id :: id in rows && rows[id].workflow == workflow && rows[id].expansionDate == Some(date) ==>
          id in dated;
    }
  }

  function ExpandedOn(rows: Rows, workflow: nat, date: int): set<nat> {
    set id | id in rows && rows[id].workflow == workflow && rows[id].expansionDate == Some(date)
  }
}
