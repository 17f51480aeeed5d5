// What any sequence of cron ticks adds up to for one workflow. Other
// transactions may run between two ticks; the only thing about them that
// matters is the fire times of the jobs they insert for the same workflow.
module CronRuns {
  import opened Base
  import opened Jobs
  import opened Workflows
  import opened Cron
  import opened Inserts

  /** One tick, as the workflow sees it. */
  datatype Round = Round(before: set<Time>, now: Time, anchor: Time, slots: seq<Time>, after: set<Time>)

  ghost predicate IsRound(r: Round, next: Time -> Time, lookback: real, cap: nat) {
    && IsAnchor(r.before, r.now, lookback, r.anchor)
    && IsCatchUp(next, r.anchor, r.now, cap, r.slots)
    && (forall f :: f in r.after <==> f in r.before || f in r.slots)
  }

  /** What `Cron.Tick` does to a workflow's jobs is such a round. */
  lemma TickIsRound(rows: Rows, rows': Rows, w: nat, row: Row, next: Time -> Time, now: Time, lookback: real, cap: nat)
    returns (r: Round)
    requires CaughtUp(rows, rows', w, row, next, now, lookback, cap)
    requires forall id :: id in rows ==> id in rows' && rows'[id] == rows[id]
    ensures IsRound(r, next, lookback, cap) && r.now == now
    ensures r.before == FiresOf(rows, w) && r.after == FiresOf(rows', w)
  {
    var anchor, first: nat, slots :|
      IsAnchor(FiresOf(rows, w), now, lookback, anchor) && IsCatchUp(next, anchor, now, cap, slots) &&
          Filled(rows, rows', w, row, first, slots, None);
    r := Round(FiresOf(rows, w), now, anchor, slots, FiresOf(rows', w));
    FilledFires(rows, rows', w, row, first, slots);
  }

  lemma FilledFires(rows: Rows, rows': Rows, w: nat, row: Row, first: nat, slots: seq<Time>)
    requires Filled(rows, rows', w, row, first, slots, None)
    requires forall id :: id in rows ==> id in rows' && rows'[id] == rows[id]
    ensures forall f :: f in FiresOf(rows', w) <==> f in FiresOf(rows, w) || f in slots
  {
    forall f | f in FiresOf(rows', w) ensures f in FiresOf(rows, w) || f in slots {
      var id :| id in rows' && rows'[id].workflow == w && rows'[id].fireAt == f;
      assert id !in rows ==> rows'[id].fireAt == slots[id - first];
    }
    forall f | f in FiresOf(rows, w) ensures f in FiresOf(rows', w) {
      var id :| id in rows && rows[id].workflow == w && rows[id].fireAt == f;
      assert id in rows' && rows'[id].workflow == w && rows'[id].fireAt == f;
    }
    forall f | f in slots ensures f in FiresOf(rows', w) {
      var i :| 0 <= i < |slots| && slots[i] == f;
      assert rows'[first + i].workflow == w && rows'[first + i].fireAt == f;
    }
  }

  ghost predicate Follows(a: Round, b: Round) {
    forall f :: f in a.after ==> f in b.before
  }

  /** Ticks in order; jobs are never deleted, and others may be inserted in between. */
  ghost predicate Rounds(rounds: seq<Round>, next: Time -> Time, lookback: real, cap: nat) {
    && (forall i :: 0 <= i < |rounds| ==> IsRound(rounds[i], next, lookback, cap))
    && (forall i :: 0 < i < |rounds| ==> Follows(rounds[i - 1], rounds[i]))
  }

  /** No other job is inserted for the workflow between the ticks. */
  predicate Quiet(rounds: seq<Round>) {
    forall i :: 0 < i < |rounds| ==> rounds[i - 1].after == rounds[i].before
  }

  /** Everything the ticks created, in creation order. */
  function Created(rounds: seq<Round>): seq<Time> {
    if rounds == [] then [] else Created(rounds[..|rounds| - 1]) + rounds[|rounds| - 1].slots
  }

  /** What order alone needs of a round. */
  ghost predicate Orderly(r: Round) {
    && Ascending(r.slots)
    && (forall x :: x in r.slots ==> r.anchor < x)
    && (forall f :: f in r.before ==> f <= r.anchor)
    && (forall f :: f in r.after <==> f in r.before || f in r.slots)
  }

  ghost predicate AllOrderly(rounds: seq<Round>) {
    && (forall i :: 0 <= i < |rounds| ==> Orderly(rounds[i]))
    && (forall i :: 0 < i < |rounds| ==> Follows(rounds[i - 1], rounds[i]))
  }

  lemma RoundsAreOrderly(rounds: seq<Round>, next: Time -> Time, lookback: real, cap: nat)
    requires Rounds(rounds, next, lookback, cap)
    ensures AllOrderly(rounds)
  {
  }

  lemma {:induction false} CreatedAreStored(rounds: seq<Round>)
    requires rounds != [] && AllOrderly(rounds)
    ensures forall x :: x in Created(rounds) ==> x in rounds[|rounds| - 1].after
    ensures forall f :: f in rounds[0].before ==> f in rounds[|rounds| - 1].after
  {
    var n := |rounds| - 1;
    if n > 0 {
      CreatedAreStored(rounds[..n]);
      assert rounds[..n][n - 1] == rounds[n - 1];
      assert Follows(rounds[n - 1], rounds[n]);
    }
  }

  lemma JoinAscending(a: seq<Time>, b: seq<Time>, m: Time)
    requires Ascending(a) && Ascending(b) && (forall x :: x in a ==> x <= m) && forall x :: x in b ==> m < x
    ensures Ascending(a + b)
  {
    forall i, j | 0 <= i < j < |a + b| ensures (a + b)[i] < (a + b)[j] {
      assert i < |a| ==> a[i] in a;
      assert j >= |a| ==> b[j - |a|] in b;
    }
  }

  lemma {:induction false} OrderlyIncrease(rounds: seq<Round>)
    requires AllOrderly(rounds)
    ensures Ascending(Created(rounds))
    ensures rounds != [] ==> forall x, f :: x in Created(rounds) && f in rounds[0].before ==> f < x
  {
    if rounds != [] {
      var n := |rounds| - 1;
      var made := Created(rounds[..n]);
      OrderlyIncrease(rounds[..n]);
      if n > 0 {
        CreatedAreStored(rounds[..n]);
        assert rounds[..n][n - 1] == rounds[n - 1];
        assert Follows(rounds[n - 1], rounds[n]);
      }
      JoinAscending(made, rounds[n].slots, rounds[n].anchor);
    }
  }

  lemma {:induction false} CreatedFrom(rounds: seq<Round>, x: Time) returns (i: nat)
    requires x in Created(rounds)
    ensures i < |rounds| && x in rounds[i].slots
  {
    i := |rounds| - 1;
    if x !in rounds[i].slots {
      i := CreatedFrom(rounds[..i], x);
    }
  }

  /**
   * Whatever else is inserted, the created fire times are occurrences and
   * strictly increase, so no occurrence is created twice.
   */
  lemma CreatedTimesIncrease(rounds: seq<Round>, next: Time -> Time, lookback: real, cap: nat)
    requires Rounds(rounds, next, lookback, cap)
    ensures Ascending(Created(rounds)) && forall x :: x in Created(rounds) ==> Occurs(next, x)
    ensures rounds != [] ==> forall x, f :: x in Created(rounds) && f in rounds[0].before ==> f < x
  {
    RoundsAreOrderly(rounds, next, lookback, cap);
    OrderlyIncrease(rounds);
    forall x | x in Created(rounds) ensures Occurs(next, x) {
      var i := CreatedFrom(rounds, x);
      assert IsRound(rounds[i], next, lookback, cap);
    }
  }

  /** With no other jobs, what is stored is what was there plus what was created. */
  lemma {:induction false} QuietFires(rounds: seq<Round>)
    requires rounds != [] && AllOrderly(rounds) && Quiet(rounds)
    ensures forall f :: f in rounds[|rounds| - 1].after <==> f in rounds[0].before || f in Created(rounds)
  {
    var n := |rounds| - 1;
    if n == 0 {
      assert Created(rounds[..0]) == [];
      assert Created(rounds) == rounds[0].slots;
    } else {
      QuietFires(rounds[..n]);
      assert rounds[..n][n - 1] == rounds[n - 1];
    }
  }

  /** Once something has been created, each quiet tick resumes exactly after the last created slot. */
  lemma ResumesAfterLast(rounds: seq<Round>, n: nat)
    requires 0 < n < |rounds| && AllOrderly(rounds) && Quiet(rounds) && Created(rounds[..n]) != []
    requires rounds[n].anchor in rounds[n].before
    ensures rounds[n].anchor == Created(rounds[..n])[|Created(rounds[..n])| - 1]
  {
    var made := Created(rounds[..n]);
    QuietFires(rounds[..n]);
    OrderlyIncrease(rounds[..n]);
    var last := made[|made| - 1];
    assert last in made && rounds[..n][n - 1] == rounds[n - 1];
    assert last in rounds[n].before;
    assert rounds[n].anchor <= last by {
      var a := rounds[n].anchor;
      assert a in rounds[0].before || a in made;
      if a in made {
        var i :| 0 <= i < |made| && made[i] == a;
      }
    }
  }

  /** A tick that finds jobs starts from one of them. */
  lemma AnchorIsStored(rounds: seq<Round>, next: Time -> Time, lookback: real, cap: nat, n: nat)
    requires 0 < n < |rounds| && Rounds(rounds, next, lookback, cap) && Created(rounds[..n]) != []
    ensures rounds[n].anchor in rounds[n].before
  {
    RoundsAreOrderly(rounds, next, lookback, cap);
    var earlier := rounds[..n];
    CreatedAreStored(earlier);
    var x := Created(earlier)[0];
    assert x in Created(earlier) && x in earlier[n - 1].after;
    assert Follows(rounds[n - 1], rounds[n]) && x in rounds[n].before;
    assert IsRound(rounds[n], next, lookback, cap);
  }

  predicate Resumes(rounds: seq<Round>, i: nat)
    requires i < |rounds|
  {
    var made := Created(rounds[..i]);
    made != [] ==> rounds[i].anchor == made[|made| - 1]
  }

  /** With no other jobs, every tick resumes exactly after the last created slot, if there is one. */
  lemma QuietResumes(rounds: seq<Round>, next: Time -> Time, lookback: real, cap: nat, n: nat)
    requires n < |rounds| && Rounds(rounds, next, lookback, cap) && Quiet(rounds)
    ensures Resumes(rounds, n)
  {
    if Created(rounds[..n]) != [] {
      AnchorIsStored(rounds, next, lookback, cap, n);
      RoundsAreOrderly(rounds, next, lookback, cap);
      ResumesAfterLast(rounds, n);
    }
  }

  /** The first tick that creates something. */
  predicate FirstCreating(rounds: seq<Round>, j: nat) {
    j < |rounds| && rounds[j].slots != [] && forall i :: 0 <= i < j ==> rounds[i].slots == []
  }

  lemma {:induction false} NothingYet(rounds: seq<Round>)
    requires forall i :: 0 <= i < |rounds| ==> rounds[i].slots == []
    ensures Created(rounds) == []
  {
    if rounds != [] { NothingYet(rounds[..|rounds| - 1]); }
  }

  /** No occurrence after `from` is missing, up to the last one made. */
  ghost predicate Gapless(next: Time -> Time, from: Time, made: seq<Time>) {
    forall x :: Occurs(next, x) && from < x <= Cursor(from, made) ==> x in made
  }

  /** A tick that resumes where the last one ended extends the gapless block. */
  lemma GaplessGrows(next: Time -> Time, from: Time, made: seq<Time>, slots: seq<Time>)
    requires Gapless(next, from, made) && Gapless(next, Cursor(from, made), slots)
    ensures Gapless(next, from, made + slots)
  {
  }

  /** From its first creating tick on, the workflow's anchor is where the created block ends. */
  predicate Continues(rounds: seq<Round>, j: nat, i: nat)
    requires j < |rounds| && i < |rounds|
  {
    rounds[i].anchor == Cursor(rounds[j].anchor, Created(rounds[..i]))
  }

  lemma {:induction false} GaplessThroughout(rounds: seq<Round>, next: Time -> Time, j: nat, n: nat)
    requires j < n <= |rounds| && Created(rounds[..j]) == []
    requires forall i: nat :: j <= i < n ==> Continues(rounds, j, i) && Gapless(next, rounds[i].anchor, rounds[i].slots)
    ensures Gapless(next, rounds[j].anchor, Created(rounds[..n]))
  {
    var from, made := rounds[j].anchor, Created(rounds[..n - 1]);
    assert Continues(rounds, j, n - 1) && Gapless(next, Cursor(from, made), rounds[n - 1].slots);
    assert Gapless(next, from, made) by {
      if j + 1 < n { GaplessThroughout(rounds, next, j, n - 1); }
    }
    GaplessGrows(next, from, made, rounds[n - 1].slots);
    CreatedGrows(rounds, n);
  }

  lemma CreatedGrows(rounds: seq<Round>, n: nat)
    requires 0 < n <= |rounds|
    ensures Created(rounds[..n]) == Created(rounds[..n - 1]) + rounds[n - 1].slots
  {
    assert rounds[..n][..n - 1] == rounds[..n - 1];
  }

  lemma ContinuesFromFirst(rounds: seq<Round>, next: Time -> Time, lookback: real, cap: nat, j: nat, i: nat)
    requires Rounds(rounds, next, lookback, cap) && Quiet(rounds) && FirstCreating(rounds, j) && j <= i < |rounds|
    ensures Continues(rounds, j, i) && Gapless(next, rounds[i].anchor, rounds[i].slots)
    ensures Created(rounds[..j]) == []
  {
    NothingYet(rounds[..j]);
    if j < i {
      CreatedAtLeast(rounds[..i], j);
      QuietResumes(rounds, next, lookback, cap, i);
    }
  }

  /** Up to where the created slots are complete. */
  predicate Covered(rounds: seq<Round>, cap: nat, x: Time)
    requires rounds != []
  {
    var made, last := Created(rounds), rounds[|rounds| - 1];
    (made != [] && x <= made[|made| - 1]) || (|last.slots| < cap && x <= last.now)
  }

  /**
   * With no other jobs the created slots are a contiguous block of occurrences
   * starting after the first creating tick's anchor, complete up to the last
   * tick's time unless that tick hit the cap.
   */
  lemma CreatedIsContiguous(rounds: seq<Round>, next: Time -> Time, lookback: real, cap: nat, j: nat, x: Time)
    requires Rounds(rounds, next, lookback, cap) && Quiet(rounds) && FirstCreating(rounds, j)
    requires Occurs(next, x) && rounds[j].anchor < x && Covered(rounds, cap, x)
    ensures x in Created(rounds)
  {
    CreatedIsGapless(rounds, next, lookback, cap, j);
    var n := |rounds| - 1;
    LastTickCovers(rounds[n], Created(rounds[..n]), rounds[j].anchor, next, lookback, cap, x);
  }

  lemma CreatedIsGapless(rounds: seq<Round>, next: Time -> Time, lookback: real, cap: nat, j: nat)
    requires Rounds(rounds, next, lookback, cap) && Quiet(rounds) && FirstCreating(rounds, j)
    ensures Gapless(next, rounds[j].anchor, Created(rounds)) && Continues(rounds, j, |rounds| - 1)
  {
    forall i: nat | j <= i < |rounds|
      ensures Continues(rounds, j, i) && Gapless(next, rounds[i].anchor, rounds[i].slots)
    {
      ContinuesFromFirst(rounds, next, lookback, cap, j, i);
    }
    ContinuesFromFirst(rounds, next, lookback, cap, j, j);
    GaplessThroughout(rounds, next, j, |rounds|);
    assert rounds[..|rounds|] == rounds;
  }

  lemma LastTickCovers(r: Round, made: seq<Time>, from: Time, next: Time -> Time, lookback: real, cap: nat, x: Time)
    requires IsRound(r, next, lookback, cap) && r.anchor == Cursor(from, made) && Occurs(next, x) && from < x
    requires Gapless(next, from, made + r.slots)
    requires (made + r.slots != [] && x <= Cursor(from, made + r.slots)) || (|r.slots| < cap && x <= r.now)
    ensures x in made + r.slots
  {
    if r.slots != [] {
      assert r.slots[|r.slots| - 1] in r.slots;
    }
  }

  lemma {:induction false} CreatedAtLeast(rounds: seq<Round>, j: nat)
    requires j < |rounds|
    ensures forall x :: x in rounds[j].slots ==> x in Created(rounds)
    ensures rounds[j].slots != [] ==> Created(rounds) != []
  {
    var n := |rounds| - 1;
    if j < n {
      CreatedAtLeast(rounds[..n], j);
      assert rounds[..n][j] == rounds[j];
    }
  }

  /** Before the first job exists, ticks at most `lookback` apart see every occurrence. */
  ghost predicate TicksOverlap(rounds: seq<Round>, lookback: real, j: nat) {
    forall i :: 0 < i <= j && i < |rounds| ==> rounds[i].now - lookback <= rounds[i - 1].now
  }

  lemma {:induction false} NothingBeforeFirst(rounds: seq<Round>, next: Time -> Time, lookback: real, cap: nat,
                                              j: nat, i: nat, x: Time)
    requires Rounds(rounds, next, lookback, cap) && Quiet(rounds) && FirstCreating(rounds, j) && cap > 0
    requires (forall f :: f !in rounds[0].before) && TicksOverlap(rounds, lookback, j)
    requires i <= j && Occurs(next, x) && rounds[0].now - lookback < x
    ensures x > rounds[i].anchor && rounds[i].anchor == rounds[i].now - lookback && forall f :: f !in rounds[i].before
  {
    if i > 0 {
      NothingBeforeFirst(rounds, next, lookback, cap, j, i - 1, x);
      assert rounds[i - 1].slots == [];
      assert forall f :: f !in rounds[i].before;
    }
  }

  /**
   * Nothing after the first tick's anchor is ever skipped over, if no other jobs
   * exist and the ticks are at most `lookback` apart until the first job.
   */
  lemma NothingIsSkipped(rounds: seq<Round>, next: Time -> Time, lookback: real, cap: nat, j: nat, x: Time)
    requires Rounds(rounds, next, lookback, cap) && Quiet(rounds) && FirstCreating(rounds, j) && cap > 0
    requires (forall f :: f !in rounds[0].before) && TicksOverlap(rounds, lookback, j)
    requires Occurs(next, x) && rounds[0].now - lookback < x && Covered(rounds, cap, x)
    ensures x in Created(rounds)
  {
    NothingBeforeFirst(rounds, next, lookback, cap, j, j, x);
    CreatedIsContiguous(rounds, next, lookback, cap, j, x);
  }

  /** A tick that does not reach x is filled up with earlier slots. */
  predicate FullBelow(r: Round, cap: nat, x: Time) {
    r.anchor < x ==> |r.slots| == cap && forall y :: y in r.slots ==> r.anchor < y < x
  }

  /** A tick past x that does not create it is filled up with earlier slots. */
  lemma FullRound(r: Round, next: Time -> Time, lookback: real, cap: nat, x: Time)
    requires IsRound(r, next, lookback, cap) && Occurs(next, x) && x <= r.now && x !in r.slots && cap > 0
    ensures FullBelow(r, cap, x)
  {
    if r.anchor < x {
      var last := r.slots[|r.slots| - 1];
      assert last < x;
      forall y | y in r.slots ensures y <= last {
        var i :| 0 <= i < |r.slots| && r.slots[i] == y;
      }
    }
  }

  /** Every tick so far was filled, below x. */
  predicate FilledBelow(rounds: seq<Round>, cap: nat, x: Time)
    requires rounds != []
  {
    |Created(rounds)| == |rounds| * cap && forall y :: y in Created(rounds) ==> rounds[0].anchor < y < x
  }

  lemma Multiples(n: nat, cap: nat)
    ensures (n + 1) * cap == n * cap + cap && (n > 0 ==> n * cap >= cap)
  {
  }

  lemma FullRoundMore(rounds: seq<Round>, cap: nat, x: Time)
    requires rounds != [] && cap > 0 && rounds[0].anchor < x
    requires FullBelow(rounds[|rounds| - 1], cap, x) && Resumes(rounds, |rounds| - 1)
    requires |rounds| > 1 ==> FilledBelow(rounds[..|rounds| - 1], cap, x)
    ensures FilledBelow(rounds, cap, x)
  {
    var n := |rounds| - 1;
    var made := Created(rounds[..n]);
    Multiples(n, cap);
    if n > 0 {
      assert made[|made| - 1] in made;
    } else {
      assert made == [];
    }
    assert |Created(rounds)| == |made| + cap;
  }

  lemma {:induction false} FullRounds(rounds: seq<Round>, cap: nat, x: Time)
    requires rounds != [] && cap > 0 && rounds[0].anchor < x
    requires forall i: nat :: i < |rounds| ==> FullBelow(rounds[i], cap, x) && Resumes(rounds, i)
    ensures FilledBelow(rounds, cap, x)
  {
    var n := |rounds| - 1;
    if n > 0 {
      var earlier := rounds[..n];
      forall i: nat | i < n ensures FullBelow(earlier[i], cap, x) && Resumes(earlier, i) {
        assert earlier[..i] == rounds[..i] && FullBelow(rounds[i], cap, x) && Resumes(rounds, i);
      }
      FullRounds(earlier, cap, x);
    }
    FullRoundMore(rounds, cap, x);
  }

  /** An occurrence that the cap keeps back has a full batch created before it in every tick. */
  lemma HeldBackOnlyByCap(rounds: seq<Round>, next: Time -> Time, lookback: real, cap: nat, x: Time)
    requires rounds != [] && Rounds(rounds, next, lookback, cap) && Quiet(rounds) && cap > 0
    requires Occurs(next, x) && rounds[0].anchor < x && forall i :: 0 <= i < |rounds| ==> x <= rounds[i].now
    requires x !in Created(rounds)
    ensures |Created(rounds)| == |rounds| * cap
    ensures forall y :: y in Created(rounds) ==> rounds[0].anchor < y < x
  {
    RoundsAreOrderly(rounds, next, lookback, cap);
    forall i | 0 <= i < |rounds| ensures FullBelow(rounds[i], cap, x) {
      CreatedAtLeast(rounds, i);
      FullRound(rounds[i], next, lookback, cap, x);
    }
    forall i: nat | i < |rounds| ensures Resumes(rounds, i) {
      QuietResumes(rounds, next, lookback, cap, i);
    }
    FullRounds(rounds, cap, x);
  }

  /** The cap only delays: k occurrences in front of x hold it back for at most k / cap more ticks. */
  lemma CapOnlyDelays(rounds: seq<Round>, next: Time -> Time, lookback: real, cap: nat, x: Time, inFront: set<Time>)
    requires rounds != [] && Rounds(rounds, next, lookback, cap) && Quiet(rounds) && cap > 0
    requires Occurs(next, x) && rounds[0].anchor < x && forall i :: 0 <= i < |rounds| ==> x <= rounds[i].now
    requires forall y :: Occurs(next, y) && rounds[0].anchor < y < x ==> y in inFront
    requires |rounds| * cap > |inFront|
    ensures x in Created(rounds)
  {
    if x !in Created(rounds) {
      var made := Created(rounds);
      HeldBackOnlyByCap(rounds, next, lookback, cap, x);
      CreatedTimesIncrease(rounds, next, lookback, cap);
      DistinctSize(made);
      assert Elements(made) <= inFront;
      SubsetSize(Elements(made), inFront);
    }
  }
}
