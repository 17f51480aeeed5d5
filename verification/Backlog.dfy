// How long a due job can wait behind a backlog: ticks claim in fire-time order,
// a batch at a time, so a job with k others before it leaves the pending state
// within k / batch + 1 ticks, however ties are broken.
module Backlog {
  import opened Base
  import opened Jobs

  predicate Waiting(rows: Rows, owner: nat, id: nat) {
    id in rows && rows[id].owner == owner && rows[id].status == Pending
  }

  /** The other pending jobs that fire no later than `id`. */
  function Ahead(rows: Rows, owner: nat, id: nat): set<nat>
    requires id in rows
  {
    set other | other in rows && other != id && Waiting(rows, owner, other) && rows[other].fireAt <= rows[id].fireAt
  }

  /** Between two ticks anything may happen except a new job ahead of `id`. */
  ghost predicate NothingJumpsAhead(rows: Rows, rows': Rows, owner: nat, id: nat) {
    && id in rows && id in rows' && rows'[id].fireAt == rows[id].fireAt && rows'[id].owner == rows[id].owner
    && (Waiting(rows', owner, id) ==> Waiting(rows, owner, id))
    && Ahead(rows', owner, id) <= Ahead(rows, owner, id)
  }

  /** A tick takes the job itself or a full batch from in front of it. */
  lemma TickShrinksBacklog(rows: Rows, rows': Rows, owner: nat, id: nat, now: Time, batch: nat, window: real,
                           claimed: seq<nat>)
    requires IsClaim(rows, owner, now, batch, window, claimed, rows')
    requires Waiting(rows, owner, id) && rows[id].fireAt <= now
    ensures id in rows' && rows'[id].fireAt == rows[id].fireAt
    ensures Waiting(rows', owner, id) ==> |Ahead(rows', owner, id)| + batch <= |Ahead(rows, owner, id)|
    ensures !Waiting(rows', owner, id) ==> rows'[id].status == Running || rows'[id].status == Skipped
  {
    if Waiting(rows', owner, id) {
      var kept := rows + SkipWrites(rows, owner, now - window, now);
      var due := Due(kept, owner, now, now - window);
      assert id in due && id !in claimed;
      assert |claimed| == batch by {
        DistinctSize(claimed);
        assert Elements(claimed) <= due - {id};
        SubsetSize(Elements(claimed), due - {id});
      }
      forall x | x in claimed ensures x in Ahead(rows, owner, id) && x !in Ahead(rows', owner, id) {
        var i :| 0 <= i < |claimed| && claimed[i] == x;
        assert FiresNoLater(kept, claimed[i], id);
      }
      assert Ahead(rows', owner, id) <= Ahead(rows, owner, id) - Elements(claimed);
      SubsetSize(Ahead(rows', owner, id), Ahead(rows, owner, id) - Elements(claimed));
      DistinctSize(claimed);
      assert Elements(claimed) <= Ahead(rows, owner, id);
    }
  }

  datatype Round = Round(before: Rows, now: Time, claimed: seq<nat>, after: Rows)

  /** Consecutive ticks, each seeing what the last one left, give or take the rest of the system. */
  ghost predicate Rounds(rounds: seq<Round>, owner: nat, id: nat, batch: nat, window: real) {
    && (forall r :: 0 <= r < |rounds| ==>
          && IsClaim(rounds[r].before, owner, rounds[r].now, batch, window, rounds[r].claimed, rounds[r].after)
          && id in rounds[r].before && rounds[r].before[id].fireAt <= rounds[r].now)
    && (forall r :: 0 < r < |rounds| ==> NothingJumpsAhead(rounds[r - 1].after, rounds[r].before, owner, id))
  }

  /** Between ticks the backlog does not grow. */
  lemma BacklogCarries(earlier: Round, later: Round, owner: nat, id: nat, batch: nat, window: real)
    requires NothingJumpsAhead(earlier.after, later.before, owner, id)
    requires IsClaim(later.before, owner, later.now, batch, window, later.claimed, later.after)
    requires Waiting(later.after, owner, id)
    ensures Waiting(later.before, owner, id) && id in earlier.after
    ensures |Ahead(later.before, owner, id)| <= |Ahead(earlier.after, owner, id)|
  {
    if !Waiting(later.before, owner, id) {
      ClaimKeepsSettled(later, owner, id, batch, window);
    }
    SubsetSize(Ahead(later.before, owner, id), Ahead(earlier.after, owner, id));
  }

  /** The backlog in front of the job before and after one tick. */
  function Sizes(r: Round, owner: nat, id: nat): (nat, nat)
    requires id in r.before && id in r.after
  {
    (|Ahead(r.before, owner, id)|, |Ahead(r.after, owner, id)|)
  }

  lemma {:induction false} SizesShrink(sizes: seq<(nat, nat)>, batch: nat)
    requires sizes != []
    requires forall r :: 0 <= r < |sizes| ==> sizes[r].1 + batch <= sizes[r].0
    requires forall r :: 0 < r < |sizes| ==> sizes[r].0 <= sizes[r - 1].1
    ensures sizes[|sizes| - 1].1 + |sizes| * batch <= sizes[0].0
  {
    var n := |sizes| - 1;
    if n > 0 {
      SizesShrink(sizes[..n], batch);
      assert sizes[..n][n - 1] == sizes[n - 1];
    }
    assert |sizes| * batch == n * batch + batch;
  }

  /** As long as the job waits, every tick has taken a full batch from in front of it. */
  lemma BacklogBound(rounds: seq<Round>, owner: nat, id: nat, batch: nat, window: real)
    requires rounds != [] && Rounds(rounds, owner, id, batch, window)
    requires forall r :: 0 <= r < |rounds| ==> Waiting(rounds[r].after, owner, id)
    requires Waiting(rounds[0].before, owner, id)
    ensures |Ahead(rounds[|rounds| - 1].after, owner, id)| + |rounds| * batch <= |Ahead(rounds[0].before, owner, id)|
  {
    var sizes := seq(|rounds|,
      r requires 0 <= r < |rounds| && id in rounds[r].before && id in rounds[r].after => Sizes(rounds[r], owner, id));
    forall r | 0 <= r < |rounds|
      ensures sizes[r].1 + batch <= sizes[r].0 && (r > 0 ==> sizes[r].0 <= sizes[r - 1].1)
    {
      var round := rounds[r];
      if r > 0 {
        BacklogCarries(rounds[r - 1], round, owner, id, batch, window);
      }
      TickShrinksBacklog(round.before, round.after, owner, id, round.now, batch, window, round.claimed);
    }
    SizesShrink(sizes, batch);
  }

  /** A claim never puts a job back to pending. */
  lemma ClaimKeepsSettled(r: Round, owner: nat, id: nat, batch: nat, window: real)
    requires IsClaim(r.before, owner, r.now, batch, window, r.claimed, r.after) && id in r.before
    requires !Waiting(r.before, owner, id)
    ensures !Waiting(r.after, owner, id)
  {
  }

  /**
   * With k jobs ahead of it, a due job is settled within any number of ticks
   * whose batches add up to more than k, that is, within k / batch + 1 of them.
   */
  lemma BacklogDrains(rounds: seq<Round>, owner: nat, id: nat, batch: nat, window: real)
    requires rounds != [] && Rounds(rounds, owner, id, batch, window)
    requires Waiting(rounds[0].before, owner, id)
    requires |rounds| * batch > |Ahead(rounds[0].before, owner, id)|
    ensures exists r :: 0 <= r < |rounds| && !Waiting(rounds[r].after, owner, id)
  {
    if forall r :: 0 <= r < |rounds| ==> Waiting(rounds[r].after, owner, id) {
      BacklogBound(rounds, owner, id, batch, window);
    }
  }

  lemma SettledByStatus(r: Round, owner: nat, id: nat, batch: nat, window: real)
    requires IsClaim(r.before, owner, r.now, batch, window, r.claimed, r.after)
    requires id in r.before && r.before[id].owner == owner && !Waiting(r.after, owner, id)
    ensures id in r.after && r.after[id].status != Pending
  {
    assert r.after.Keys == r.before.Keys && r.after[id].owner == owner;
  }

  lemma {:induction false} FirstTrue(flags: seq<bool>, r: nat) returns (first: nat)
    requires r < |flags| && flags[r]
    ensures first <= r && flags[first] && (first > 0 ==> !flags[first - 1])
  {
    first := r;
    if r > 0 && flags[r - 1] {
      first := FirstTrue(flags, r - 1);
    }
  }

  lemma StaysWithOwner(rounds: seq<Round>, owner: nat, id: nat, batch: nat, window: real, r: nat)
    requires Rounds(rounds, owner, id, batch, window) && 0 < r < |rounds| && Waiting(rounds[r - 1].after, owner, id)
    ensures rounds[r].before[id].owner == owner
  {
    assert NothingJumpsAhead(rounds[r - 1].after, rounds[r].before, owner, id);
  }

  lemma RoundAt(rounds: seq<Round>, owner: nat, id: nat, batch: nat, window: real, r: nat)
    requires Rounds(rounds, owner, id, batch, window) && r < |rounds|
    ensures IsClaim(rounds[r].before, owner, rounds[r].now, batch, window, rounds[r].claimed, rounds[r].after)
    ensures id in rounds[r].before
  {
  }

  /** The first time the job has left the backlog, it is because its status has changed. */
  lemma LeavesByStatus(rounds: seq<Round>, owner: nat, id: nat, batch: nat, window: real, r: nat) returns (first: nat)
    requires Rounds(rounds, owner, id, batch, window) && r < |rounds|
    requires Waiting(rounds[0].before, owner, id) && !Waiting(rounds[r].after, owner, id)
    ensures first <= r && id in rounds[first].after && rounds[first].after[id].status != Pending
  {
    var flags := seq(|rounds|, n requires 0 <= n < |rounds| => !Waiting(rounds[n].after, owner, id));
    first := FirstTrue(flags, r);
    RoundAt(rounds, owner, id, batch, window, first);
    if first > 0 {
      StaysWithOwner(rounds, owner, id, batch, window, first);
    }
    SettledByStatus(rounds[first], owner, id, batch, window);
  }

  /**
   * In ticks: a pending job with k pending jobs of its owner firing no later is
   * claimed, retired or cancelled within k / batch + 1 of them.
   */
  lemma SettledInTime(rounds: seq<Round>, owner: nat, id: nat, batch: nat, window: real)
    requires batch > 0 && rounds != [] && Rounds(rounds, owner, id, batch, window)
    requires rounds[0].before[id].owner == owner && rounds[0].before[id].status == Pending
    requires var rows := rounds[0].before;
             |rounds| == |set x | x in rows && x != id && rows[x].owner == owner && rows[x].status == Pending
                                  && rows[x].fireAt <= rows[id].fireAt| / batch + 1
    ensures exists r :: 0 <= r < |rounds| && id in rounds[r].after && rounds[r].after[id].status != Pending
  {
    var rows := rounds[0].before;
    assert Ahead(rows, owner, id) == set x | x in rows && x != id && rows[x].owner == owner
                                             && rows[x].status == Pending && rows[x].fireAt <= rows[id].fireAt;
    EnoughTicks(|Ahead(rows, owner, id)|, batch);
    BacklogDrains(rounds, owner, id, batch, window);
    var r :| 0 <= r < |rounds| && !Waiting(rounds[r].after, owner, id);
    var first := LeavesByStatus(rounds, owner, id, batch, window, r);
  }

  lemma EnoughTicks(k: nat, batch: nat)
    requires batch > 0
    ensures (k / batch + 1) * batch > k
  {
    assert k == batch * (k / batch) + k % batch;
  }
}
