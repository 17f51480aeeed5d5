// Which cron occurrences are created and which are passed over for good, in any
// sequence of ticks with any other jobs in between, with the cases the code loses.
module CronHiding {
  import opened Jobs
  import opened Cron
  import opened CronRuns

  /** The k-th occurrence after an instant, from zero. */
  function Nth(next: Time -> Time, from: Time, k: nat): Time {
    if k == 0 then next(from) else next(Nth(next, from, k - 1))
  }

  ghost predicate AmongNext(next: Time -> Time, from: Time, cap: nat, x: Time) {
    exists k: nat :: k < cap && Nth(next, from, k) == x
  }

  lemma {:induction false} NthIncreases(next: Time -> Time, from: Time, j: nat, k: nat)
    requires IsSchedule(next) && j <= k
    ensures from < Nth(next, from, j) <= Nth(next, from, k)
    decreases k
  {
    if j < k {
      NthIncreases(next, from, j, k - 1);
    } else if j > 0 {
      NthIncreases(next, from, j - 1, j - 1);
    }
  }

  lemma {:induction false} SlotIsNth(next: Time -> Time, anchor: Time, now: Time, cap: nat, slots: seq<Time>, k: nat)
    requires IsSchedule(next) && IsCatchUp(next, anchor, now, cap, slots) && k < |slots|
    ensures slots[k] == Nth(next, anchor, k)
  {
    if k > 0 {
      SlotIsNth(next, anchor, now, cap, slots, k - 1);
    }
    var previous := if k == 0 then anchor else slots[k - 1];
    assert slots[k] in slots && Occurs(next, next(previous)) && slots[|slots| - 1] >= slots[k];
    var b :| next(b) == slots[k];
    assert k > 0 ==> slots[k - 1] in slots;
    var m :| 0 <= m < |slots| && slots[m] == next(previous);
    assert m == k;
  }

  lemma NextIsPastNow(next: Time -> Time, anchor: Time, now: Time, cap: nat, slots: seq<Time>)
    requires IsSchedule(next) && IsCatchUp(next, anchor, now, cap, slots) && |slots| < cap
    ensures Nth(next, anchor, |slots|) > now
  {
    var n := |slots|;
    if n > 0 {
      SlotIsNth(next, anchor, now, cap, slots, n - 1);
    }
    var cursor := Cursor(anchor, slots);
    assert Occurs(next, next(cursor));
    assert n > 0 ==> slots[n - 1] in slots;
    assert next(cursor) !in slots;
  }

  /** A tick creates exactly those of the next `cap` occurrences that have come. */
  lemma SlotExactly(r: Round, next: Time -> Time, lookback: real, cap: nat, x: Time)
    requires IsSchedule(next) && IsRound(r, next, lookback, cap)
    ensures x in r.slots <==> x <= r.now && AmongNext(next, r.anchor, cap, x)
  {
    if x in r.slots {
      var k :| 0 <= k < |r.slots| && r.slots[k] == x;
      SlotIsNth(next, r.anchor, r.now, cap, r.slots, k);
    } else if x <= r.now && AmongNext(next, r.anchor, cap, x) {
      var k: nat :| k < cap && Nth(next, r.anchor, k) == x;
      if k < |r.slots| {
        SlotIsNth(next, r.anchor, r.now, cap, r.slots, k);
      } else {
        NextIsPastNow(next, r.anchor, r.now, cap, r.slots);
        NthIncreases(next, r.anchor, |r.slots|, k);
      }
    }
  }

  /** No job of the workflow fires at or after x, and without any job x is inside the lookback. */
  ghost predicate InView(before: set<Time>, now: Time, lookback: real, x: Time) {
    && (forall f :: f in before ==> f < x)
    && ((forall f :: f !in before) ==> now - lookback < x)
  }

  /** The tick finds x in view, come, and among the next `cap` occurrences. */
  ghost predicate Reached(r: Round, next: Time -> Time, lookback: real, cap: nat, x: Time) {
    InView(r.before, r.now, lookback, x) && x <= r.now && AmongNext(next, r.anchor, cap, x)
  }

  lemma SlotIsReached(r: Round, next: Time -> Time, lookback: real, cap: nat, x: Time)
    requires IsSchedule(next) && IsRound(r, next, lookback, cap)
    ensures x in r.slots <==> Reached(r, next, lookback, cap, x)
    ensures InView(r.before, r.now, lookback, x) <==> r.anchor < x
  {
    SlotExactly(r, next, lookback, cap, x);
    if AmongNext(next, r.anchor, cap, x) {
      var k: nat :| k < cap && Nth(next, r.anchor, k) == x;
      NthIncreases(next, r.anchor, k, k);
    }
  }

  /**
   * Whatever other jobs are inserted and whenever: an instant is created exactly
   * if some tick reaches it, before any job of the workflow at or after it.
   */
  lemma CreatedExactly(rounds: seq<Round>, next: Time -> Time, lookback: real, cap: nat, x: Time)
    requires IsSchedule(next) && Rounds(rounds, next, lookback, cap)
    ensures x in Created(rounds) <==> exists n :: 0 <= n < |rounds| && Reached(rounds[n], next, lookback, cap, x)
  {
    if x in Created(rounds) {
      var n := CreatedFrom(rounds, x);
      SlotIsReached(rounds[n], next, lookback, cap, x);
    }
    forall n | 0 <= n < |rounds| && Reached(rounds[n], next, lookback, cap, x) ensures x in Created(rounds) {
      SlotIsReached(rounds[n], next, lookback, cap, x);
      CreatedAtLeast(rounds, n);
    }
  }

  /** A job at or after x, of any origin, hides x from that tick on. */
  lemma HiddenForGood(rounds: seq<Round>, next: Time -> Time, lookback: real, cap: nat, k: nat, n: nat, f: Time,
                      x: Time)
    requires IsSchedule(next) && Rounds(rounds, next, lookback, cap) && k <= n < |rounds|
    requires f in rounds[k].before && x <= f
    ensures x !in rounds[n].slots
  {
    RoundsAreOrderly(rounds, next, lookback, cap);
    var tail := rounds[k..n + 1];
    forall i | 0 < i < |tail| ensures Follows(tail[i - 1], tail[i]) {
      assert Follows(rounds[k + i - 1], rounds[k + i]);
    }
    CreatedAreStored(tail);
    OrderlyIncrease(tail);
    CreatedAtLeast(tail, n - k);
  }

  /** The clock does not go back. */
  predicate ClockForward(rounds: seq<Round>) {
    forall i, j :: 0 <= i < j < |rounds| ==> rounds[i].now <= rounds[j].now
  }

  /** A tick starts no earlier than `low`, or from something created before. */
  predicate StartsFrom(rounds: seq<Round>, i: nat, low: Time)
    requires i < |rounds|
  {
    rounds[i].anchor >= low || rounds[i].anchor in Created(rounds[..i])
  }

  lemma {:induction false} CreatedFromLow(rounds: seq<Round>, low: Time)
    requires forall i: nat :: i < |rounds| ==> StartsFrom(rounds, i, low) && Orderly(rounds[i])
    ensures forall y :: y in Created(rounds) ==> y > low
  {
    if rounds != [] {
      var n := |rounds| - 1;
      var earlier := rounds[..n];
      forall i: nat | i < n ensures StartsFrom(earlier, i, low) && Orderly(earlier[i]) {
        assert earlier[..i] == rounds[..i] && StartsFrom(rounds, i, low) && Orderly(rounds[i]);
      }
      CreatedFromLow(earlier, low);
      assert StartsFrom(rounds, n, low) && Orderly(rounds[n]);
    }
  }

  lemma RoundStartsFrom(rounds: seq<Round>, next: Time -> Time, lookback: real, cap: nat, i: nat)
    requires Rounds(rounds, next, lookback, cap) && Quiet(rounds) && ClockForward(rounds) && i < |rounds|
    requires forall f :: f !in rounds[0].before
    ensures StartsFrom(rounds, i, rounds[0].now - lookback)
  {
    assert IsRound(rounds[i], next, lookback, cap);
    if i > 0 {
      var earlier := rounds[..i];
      RoundsAreOrderly(rounds, next, lookback, cap);
      assert AllOrderly(earlier) by {
        forall j | 0 < j < i ensures Follows(earlier[j - 1], earlier[j]) {
          assert Follows(rounds[j - 1], rounds[j]);
        }
      }
      QuietFires(earlier);
      assert earlier[i - 1] == rounds[i - 1] && rounds[i].before == rounds[i - 1].after;
    }
  }

  /** Where a workflow without jobs starts bounds everything it will ever create. */
  lemma NothingBeforeLookback(rounds: seq<Round>, next: Time -> Time, lookback: real, cap: nat)
    requires rounds != [] && Rounds(rounds, next, lookback, cap) && Quiet(rounds) && ClockForward(rounds)
    requires forall f :: f !in rounds[0].before
    ensures forall y :: y in Created(rounds) ==> y > rounds[0].now - lookback
  {
    RoundsAreOrderly(rounds, next, lookback, cap);
    var low := rounds[0].now - lookback;
    forall i: nat | i < |rounds| ensures StartsFrom(rounds, i, low) && Orderly(rounds[i]) {
      RoundStartsFrom(rounds, next, lookback, cap, i);
    }
    CreatedFromLow(rounds, low);
  }

  /**
   * With no other jobs after the start and enough ticks, an occurrence is created
   * exactly if it was in view at the first tick: no job of the workflow fired at
   * or after it, and a workflow without jobs had it inside the lookback.
   */
  lemma HiddenExactlyByLaterJobs(rounds: seq<Round>, next: Time -> Time, lookback: real, cap: nat, x: Time,
                                 inFront: set<Time>)
    requires rounds != [] && Rounds(rounds, next, lookback, cap) && Quiet(rounds) && ClockForward(rounds) && cap > 0
    requires Occurs(next, x) && forall i :: 0 <= i < |rounds| ==> x <= rounds[i].now
    requires forall y :: Occurs(next, y) && rounds[0].anchor < y < x ==> y in inFront
    requires |rounds| * cap > |inFront|
    ensures x in Created(rounds) <==> InView(rounds[0].before, rounds[0].now, lookback, x)
  {
    CreatedTimesIncrease(rounds, next, lookback, cap);
    assert IsRound(rounds[0], next, lookback, cap);
    if InView(rounds[0].before, rounds[0].now, lookback, x) {
      CapOnlyDelays(rounds, next, lookback, cap, x, inFront);
    } else if forall f :: f !in rounds[0].before {
      NothingBeforeLookback(rounds, next, lookback, cap);
    }
  }

  // ---- concrete ticks

  /** On every whole instant. */
  function EveryWhole(x: Time): Time {
    (x.Floor + 1) as real
  }

  lemma NextWhole(low: Time, n: int)
    requires low < n as real
    ensures EveryWhole(low) <= n as real
  {
    var f := low.Floor;
    assert f as real <= low;
    assert f < n;
  }

  lemma EveryWholeIsSchedule()
    ensures IsSchedule(EveryWhole)
  {
    forall x, y | EveryWhole(y) > x ensures EveryWhole(x) <= EveryWhole(y) {
      NextWhole(x, y.Floor + 1);
    }
    forall x ensures EveryWhole(x) > x {
    }
  }

  lemma WholeAfter(low: int, high: int, x: Time) returns (n: int)
    requires Occurs(EveryWhole, x) && low as real < x <= high as real
    ensures low < n <= high && x == n as real
  {
    var b :| EveryWhole(b) == x;
    n := b.Floor + 1;
  }

  const USUAL := Round({10.0}, 12.0, 10.0, [11.0, 12.0], {10.0, 11.0, 12.0})
  const HIDDEN := Round({10.0, 11.5}, 12.0, 11.5, [12.0], {10.0, 11.5, 12.0})

  lemma ElevenAndTwelveOccur()
    ensures Occurs(EveryWhole, 11.0) && Occurs(EveryWhole, 12.0)
  {
    assert EveryWhole(10.0) == 11.0;
    assert EveryWhole(11.0) == 12.0;
  }

  lemma UsualRound()
    ensures IsRound(USUAL, EveryWhole, LOOKBACK, MAX_CATCHUP)
  {
    ElevenAndTwelveOccur();
    forall x | Occurs(EveryWhole, x) && 10.0 < x <= 12.0 ensures x in USUAL.slots {
      var n := WholeAfter(10, 12, x);
    }
  }

  lemma HiddenRound()
    ensures IsRound(HIDDEN, EveryWhole, LOOKBACK, MAX_CATCHUP)
  {
    ElevenAndTwelveOccur();
    forall x | Occurs(EveryWhole, x) && 11.5 < x <= 12.0 ensures x in HIDDEN.slots {
      var n := WholeAfter(11, 12, x);
    }
  }

  /**
   * The same tick at 12 with the last job at 10, and with a job fired by hand at
   * 11.5 besides: the slot at 11 is created in one case and passed over in the other.
   */
  lemma FiredByHandHidesASlot() returns (usual: Round, hidden: Round)
    ensures IsSchedule(EveryWhole) && Occurs(EveryWhole, 11.0)
    ensures IsRound(usual, EveryWhole, LOOKBACK, MAX_CATCHUP) && IsRound(hidden, EveryWhole, LOOKBACK, MAX_CATCHUP)
    ensures usual.now == hidden.now == 12.0 && usual.before == {10.0} && hidden.before == {10.0, 11.5}
    ensures 11.0 in usual.slots && 11.0 !in hidden.after
  {
    EveryWholeIsSchedule();
    ElevenAndTwelveOccur();
    UsualRound();
    HiddenRound();
    usual, hidden := USUAL, HIDDEN;
  }
}
