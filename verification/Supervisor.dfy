// Restarting a crashed task with back-off, and giving up on too many crashes in
// a sliding window.
module Supervisor {
  import opened Jobs

  predicate Sorted(h: seq<Time>) {
    forall i, j :: 0 <= i < j < |h| ==> h[i] <= h[j]
  }

  /** The crashes that are still inside the window at `now`, in order. */
  function Recent(h: seq<Time>, now: Time, window: real): seq<Time> {
    if h == [] then []
    else
      var n := |h| - 1;
      var kept := Recent(h[..n], now, window);
      if now - h[n] < window then kept + [h[n]] else kept
  }

  /** The latest crash together with the earlier ones inside the window before it. */
  function Trailing(h: seq<Time>, window: real): seq<Time>
    requires h != []
  {
    Recent(h[..|h| - 1], h[|h| - 1], window) + [h[|h| - 1]]
  }

  function Pow2(n: nat): nat {
    if n == 0 then 1 else 2 * Pow2(n - 1)
  }

  function Backoff(failures: nat): real {
    if Pow2(failures) < 30 then Pow2(failures) as real else 30.0
  }

  /** The back-offs slept between `n` crashes in one window and the next. */
  function Total(n: nat): real {
    if n == 0 then 0.0 else Total(n - 1) + Backoff(n)
  }

  /** How many crashes the k-th one finds in its window, itself included. */
  function SizeAt(h: seq<Time>, k: nat, window: real): nat
    requires 0 < k <= |h|
  {
    |Trailing(h[..k], window)|
  }

  lemma SizeAtEnd(h: seq<Time>, window: real)
    requires h != []
    ensures SizeAt(h, |h|, window) == |Trailing(h, window)|
  {
    assert h[..|h|] == h;
  }

  lemma SizeOfPrefix(h: seq<Time>, n: nat, k: nat, window: real)
    requires 0 < k <= n <= |h|
    ensures SizeAt(h[..n], k, window) == SizeAt(h, k, window)
  {
    assert h[..n][..k] == h[..k];
  }

  /** Each crash comes at least a back-off after the one before. */
  predicate Paced(h: seq<Time>, window: real) {
    && Sorted(h)
    && forall k :: 0 < k < |h| ==> h[k] >= h[k - 1] + Backoff(SizeAt(h, k, window))
  }

  /** Forgetting old crashes early loses nothing, because the clock does not go back. */
  lemma {:induction false} PruningAgainIsPruning(h: seq<Time>, earlier: Time, now: Time, window: real)
    requires earlier <= now
    ensures Recent(Recent(h, earlier, window), now, window) == Recent(h, now, window)
  {
    if h != [] {
      var n := |h| - 1;
      var kept := Recent(h[..n], earlier, window);
      PruningAgainIsPruning(h[..n], earlier, now, window);
      RecentAppends(kept, h[n], now, window);
    }
  }

  lemma RecentAppends(h: seq<Time>, t: Time, now: Time, window: real)
    ensures var kept := Recent(h, now, window);
            Recent(h + [t], now, window) == if now - t < window then kept + [t] else kept
  {
    assert (h + [t])[..|h|] == h;
  }

  /** The list carried from crash to crash is the window over the whole history. */
  lemma CarriedListIsWindow(h: seq<Time>, now: Time, window: real)
    requires h != [] && h[|h| - 1] <= now
    ensures Recent(Trailing(h, window), now, window) == Recent(h, now, window)
  {
    var n := |h| - 1;
    var g := h[..n];
    assert g + [h[n]] == h;
    PruningAgainIsPruning(g, h[n], now, window);
    RecentAppends(Recent(g, h[n], window), h[n], now, window);
    RecentAppends(g, h[n], now, window);
  }

  /** When the task runs again after the crashes so far. */
  function ResumeAt(h: seq<Time>, start: Time, window: real): Time {
    if h == [] then start else h[|h| - 1] + Backoff(|Trailing(h, window)|)
  }

  /** The crash times that follow from how long the task runs each time. */
  function CrashTimes(runs: seq<real>, start: Time, window: real): (h: seq<Time>)
    ensures |h| == |runs|
  {
    if runs == [] then []
    else
      var n := |runs| - 1;
      var earlier := CrashTimes(runs[..n], start, window);
      earlier + [ResumeAt(earlier, start, window) + runs[n]]
  }

  /**
   * What supervising comes to: the crashes that follow from the run times, up to
   * and including the first with more than `budget` crashes in the window,
   * counted over the whole history, if there is one.
   */
  predicate Supervised(runs: seq<real>, start: Time, window: real, budget: nat, gaveUp: bool, h: seq<Time>) {
    && |h| <= |runs| && h == CrashTimes(runs[..|h|], start, window) && Paced(h, window)
    && (gaveUp <==> h != [] && |Trailing(h, window)| > budget)
    && (h != [] ==> WithinBudget(h, window, budget, |h| - 1))
    && (!gaveUp ==> |h| == |runs|)
    && (gaveUp ==> budget == 0 || Total(budget) < window)
  }

  /** The supervisor over a series of crashes, each after the task ran for a while. */
  method Supervise(runs: seq<real>, start: Time, window: real, budget: nat) returns (gaveUp: bool, history: seq<Time>)
    requires forall i :: 0 <= i < |runs| ==> runs[i] >= 0.0
    ensures Supervised(runs, start, window, budget, gaveUp, history)
  {
    var failures: seq<Time>, now := [], start;
    gaveUp, history := false, [];
    for i := 0 to |runs|
      invariant |history| == i && Watching(failures, history, now, runs[..i], start, window, budget)
    {
      failures, history, now := RecordCrash(failures, history, now, runs, i, start, window, budget);
      if |failures| > budget {
        CrashIsLast(failures, history, runs[..i + 1], runs, start, window, budget);
        return true, history;
      }
      CrashIsAllowed(failures, history, now, runs[..i + 1], start, window, budget);
      var backoff := Backoff(|failures|);
      now := now + backoff;
    }
    EndIsSupervised(failures, history, now, runs, start, window, budget);
  }

  /** The crash itself: drop what has left the window, add the crash. */
  method RecordCrash(failures: seq<Time>, h: seq<Time>, resumed: Time, runs: seq<real>, i: nat, ghost start: Time,
                     window: real, ghost budget: nat)
    returns (failures': seq<Time>, h': seq<Time>, now: Time)
    requires i < |runs| && runs[i] >= 0.0 && Watching(failures, h, resumed, runs[..i], start, window, budget)
    ensures Crashed(failures', h', runs[..i + 1], start, window, budget)
    ensures |h'| == |h| + 1 && now == h'[|h|]
  {
    ghost var more := runs[..i] + [runs[i]];
    assert more == runs[..i + 1];
    CrashIsCarried(failures, h, resumed, runs[..i], runs[i], start, window, budget);
    now := resumed + runs[i];
    failures' := Recent(failures, now, window) + [now];
    h' := h + [now];
  }

  /** Right after a crash: the list is the window over the history, and no earlier crash exceeded the budget. */
  predicate Crashed(failures: seq<Time>, h: seq<Time>, runs: seq<real>, start: Time, window: real, budget: nat) {
    && h != [] && h == CrashTimes(runs, start, window) && Paced(h, window) && failures == Trailing(h, window)
    && WithinBudget(h, window, budget, |h| - 1)
  }

  /** Between two crashes: the list is the window over the history, and the back-off has been slept. */
  predicate Watching(failures: seq<Time>, h: seq<Time>, now: Time, runs: seq<real>, start: Time, window: real,
                     budget: nat) {
    && h == CrashTimes(runs, start, window) && Paced(h, window) && now == ResumeAt(h, start, window)
    && failures == (if h == [] then [] else Trailing(h, window))
    && WithinBudget(h, window, budget, |h|)
  }

  lemma CrashIsCarried(failures: seq<Time>, h: seq<Time>, now: Time, runs: seq<real>, ran: real, start: Time,
                       window: real, budget: nat)
    requires Watching(failures, h, now, runs, start, window, budget) && ran >= 0.0
    ensures var t := now + ran;
            Crashed(Recent(failures, t, window) + [t], h + [t], runs + [ran], start, window, budget)
  {
    var t := now + ran;
    if h != [] {
      BackoffGrows(0, |failures|);
      CarriedListIsWindow(h, t, window);
    }
    PacedGrows(h, t, window);
    BudgetGrows(h, t, window, budget);
    TimesAppend(h, t, runs, ran, start, window);
    TrailingAppends(h, t, window);
  }

  lemma TimesAppend(h: seq<Time>, t: Time, runs: seq<real>, ran: real, start: Time, window: real)
    requires h == CrashTimes(runs, start, window) && t == ResumeAt(h, start, window) + ran
    ensures CrashTimes(runs + [ran], start, window) == h + [t]
  {
    assert (runs + [ran])[..|runs|] == runs;
  }

  lemma TrailingAppends(h: seq<Time>, t: Time, window: real)
    ensures Trailing(h + [t], window) == Recent(h, t, window) + [t]
  {
    assert (h + [t])[..|h|] == h;
  }

  lemma CrashIsAllowed(failures: seq<Time>, h: seq<Time>, now: Time, runs: seq<real>, start: Time, window: real,
                       budget: nat)
    requires Crashed(failures, h, runs, start, window, budget) && |failures| <= budget && now == h[|h| - 1]
    ensures Watching(failures, h, now + Backoff(|failures|), runs, start, window, budget)
  {
    SizeAtEnd(h, window);
  }

  lemma CrashIsLast(failures: seq<Time>, h: seq<Time>, done: seq<real>, runs: seq<real>, start: Time, window: real,
                    budget: nat)
    requires |h| <= |runs| && done == runs[..|h|] && Crashed(failures, h, done, start, window, budget)
    requires |failures| > budget
    ensures Supervised(runs, start, window, budget, true, h)
  {
    TooSlowToGiveUp(h, window, budget);
  }

  lemma EndIsSupervised(failures: seq<Time>, h: seq<Time>, now: Time, runs: seq<real>, start: Time, window: real,
                        budget: nat)
    requires |h| == |runs| && Watching(failures, h, now, runs[..|h|], start, window, budget)
    ensures Supervised(runs, start, window, budget, false, h)
  {
    if h != [] {
      SizeAtEnd(h, window);
    }
  }

  /** At none of the first `n` crashes was the budget exceeded. */
  predicate WithinBudget(h: seq<Time>, window: real, budget: nat, n: nat)
    requires n <= |h|
  {
    forall k :: 0 < k <= n ==> SizeAt(h, k, window) <= budget
  }

  lemma BudgetGrows(h: seq<Time>, t: Time, window: real, budget: nat)
    requires WithinBudget(h, window, budget, |h|)
    ensures WithinBudget(h + [t], window, budget, |h|)
    ensures |Trailing(h + [t], window)| <= budget ==> WithinBudget(h + [t], window, budget, |h| + 1)
  {
    var g := h + [t];
    assert g[..|h|] == h;
    forall k | 0 < k <= |h| ensures SizeAt(g, k, window) <= budget {
      SizeOfPrefix(g, |h|, k, window);
    }
    SizeAtEnd(g, window);
  }

  lemma PacedGrows(h: seq<Time>, t: Time, window: real)
    requires Paced(h, window) && (h != [] ==> t >= h[|h| - 1] && t >= h[|h| - 1] + Backoff(|Trailing(h, window)|))
    ensures Paced(h + [t], window)
  {
    var g := h + [t];
    forall k | 0 < k < |g| ensures g[k] >= g[k - 1] + Backoff(SizeAt(g, k, window)) {
      assert g[..k] == if k < |h| then h[..k] else h;
    }
  }

  // ---- when it can give up at all

  /** How many crashes are recent is a question about one of them. */
  lemma {:induction false} RecentSize(h: seq<Time>, now: Time, window: real, m: nat)
    requires Sorted(h)
    ensures |Recent(h, now, window)| >= m <==> m == 0 || (m <= |h| && now - h[|h| - m] < window)
  {
    if h != [] && m > 0 {
      var n := |h| - 1;
      var g := h[..n];
      if now - h[n] < window {
        RecentSize(g, now, window, m - 1);
        assert 1 < m <= n + 1 ==> g[n - (m - 1)] == h[n + 1 - m];
      } else {
        RecentSize(g, now, window, 1);
        assert n > 0 ==> g[n - 1] <= h[n];
        assert m <= n + 1 ==> h[n + 1 - m] <= h[n];
      }
    }
  }

  lemma TrailingSize(h: seq<Time>, window: real, m: nat)
    requires Sorted(h) && m < |h|
    ensures |Trailing(h, window)| > m <==> m == 0 || h[|h| - 1] - h[|h| - 1 - m] < window
  {
    RecentSize(h[..|h| - 1], h[|h| - 1], window, m);
  }

  /** Inside one window the j-th crash after `first` finds at least j + 1 in its list. */
  lemma BackoffAfter(h: seq<Time>, window: real, first: nat, j: nat)
    requires Paced(h, window) && first + j + 1 < |h| && h[first + j] - h[first] < window
    ensures h[first + j + 1] >= h[first + j] + Backoff(j + 1)
  {
    var k := first + j + 1;
    var g := h[..k];
    assert g[k - 1] == h[first + j] && g[k - 1 - j] == h[first];
    TrailingSize(g, window, j);
    BackoffGrows(j + 1, |Trailing(g, window)|);
    assert h[k] >= h[k - 1] + Backoff(SizeAt(h, k, window));
  }

  lemma {:induction false} BackoffGrows(a: nat, b: nat)
    requires a <= b
    ensures Backoff(a) <= Backoff(b)
  {
    if a < b {
      BackoffGrows(a, b - 1);
    }
  }

  /** Crashes that share a window are at least the back-offs between them apart. */
  lemma {:induction false} BackoffsSpan(h: seq<Time>, window: real, first: nat, j: nat)
    requires Paced(h, window) && first + j < |h| && h[first + j] - h[first] < window
    ensures h[first + j] - h[first] >= Total(j)
  {
    if j > 0 {
      assert h[first + j - 1] <= h[first + j];
      BackoffsSpan(h, window, first, j - 1);
      BackoffAfter(h, window, first, j - 1);
    }
  }

  lemma {:induction false} RecentFits(h: seq<Time>, now: Time, window: real)
    ensures |Recent(h, now, window)| <= |h|
  {
    if h != [] { RecentFits(h[..|h| - 1], now, window); }
  }

  /** More crashes than the budget in one window need a window longer than their back-offs. */
  lemma TooSlowToGiveUp(h: seq<Time>, window: real, budget: nat)
    requires Paced(h, window) && h != [] && |Trailing(h, window)| > budget
    ensures budget == 0 || Total(budget) < window
  {
    RecentFits(h[..|h| - 1], h[|h| - 1], window);
    TrailingSize(h, window, budget);
    if budget > 0 {
      BackoffsSpan(h, window, |h| - 1 - budget, budget);
    }
  }

  /** n + 1 crashes, each right after its back-off. */
  function FastCrashes(n: nat): (h: seq<Time>)
    ensures |h| == n + 1 && h[0] == 0.0 && h[n] == Total(n)
  {
    if n == 0 then [0.0] else FastCrashes(n - 1) + [Total(n)]
  }

  lemma {:induction false} FastCrashesFit(n: nat, window: real)
    requires n == 0 || Total(n) < window
    ensures Paced(FastCrashes(n), window) && |Trailing(FastCrashes(n), window)| == n + 1
  {
    if n == 0 {
      PacedGrows([], 0.0, window);
      assert [] + [0.0] == FastCrashes(0);
    } else {
      assert Backoff(n) > 0.0 by { BackoffGrows(0, n); }
      FastCrashesFit(n - 1, window);
      CrashAgain(FastCrashes(n - 1), Total(n), window);
    }
  }

  /** A crash right after the back-off, all of them still inside the window. */
  lemma CrashAgain(h: seq<Time>, t: Time, window: real)
    requires Paced(h, window) && h != [] && |Trailing(h, window)| == |h| && t - h[0] < window
    requires t >= h[|h| - 1] + Backoff(|h|) && t >= h[|h| - 1]
    ensures Paced(h + [t], window) && |Trailing(h + [t], window)| == |h| + 1
  {
    var g := h + [t];
    PacedGrows(h, t, window);
    TrailingSize(g, window, |h|);
    RecentFits(g[..|h|], t, window);
  }

  /**
   * Over all windows and budgets: some series of crashes makes the supervisor
   * give up exactly when the window is longer than the back-offs it sleeps
   * between that many crashes, or no crash is allowed at all.
   */
  lemma GivesUpExactly(window: real, budget: nat)
    ensures (exists h :: Paced(h, window) && h != [] && |Trailing(h, window)| > budget)
       <==> budget == 0 || Total(budget) < window
  {
    if budget == 0 || Total(budget) < window {
      FastCrashesFit(budget, window);
    }
    forall h | Paced(h, window) && h != [] && |Trailing(h, window)| > budget
      ensures budget == 0 || Total(budget) < window
    {
      TooSlowToGiveUp(h, window, budget);
    }
  }

  /** How long the task must run each time to crash at the given times. */
  function RunsOf(h: seq<Time>, start: Time, window: real): (runs: seq<real>)
    ensures |runs| == |h|
  {
    if h == [] then []
    else
      var n := |h| - 1;
      RunsOf(h[..n], start, window) + [h[n] - ResumeAt(h[..n], start, window)]
  }

  /** These run times lead to exactly those crashes. */
  lemma {:induction false} RunsLeadBack(h: seq<Time>, start: Time, window: real)
    ensures CrashTimes(RunsOf(h, start, window), start, window) == h
  {
    if h != [] {
      var n := |h| - 1;
      var earlier := h[..n];
      RunsLeadBack(earlier, start, window);
      CrashTimesGrow(RunsOf(earlier, start, window), h[n] - ResumeAt(earlier, start, window), start, window);
      assert earlier + [h[n]] == h;
    }
  }

  /** And they are possible for a paced history. */
  lemma {:induction false} RunsArePossible(h: seq<Time>, start: Time, window: real)
    requires Paced(h, window) && (h != [] ==> h[0] >= start)
    ensures forall k :: 0 <= k < |h| ==> RunsOf(h, start, window)[k] >= 0.0
  {
    if h != [] {
      PacedPrefix(h, |h| - 1, window);
      RunsArePossible(h[..|h| - 1], start, window);
      ResumesInTime(h, start, window);
    }
  }

  lemma CrashTimesGrow(runs: seq<real>, ran: real, start: Time, window: real)
    ensures var h := CrashTimes(runs, start, window);
            CrashTimes(runs + [ran], start, window) == h + [ResumeAt(h, start, window) + ran]
  {
    assert (runs + [ran])[..|runs|] == runs;
  }

  /** The task had resumed before it crashed the last time. */
  lemma ResumesInTime(h: seq<Time>, start: Time, window: real)
    requires Paced(h, window) && h != [] && h[0] >= start
    ensures h[|h| - 1] >= ResumeAt(h[..|h| - 1], start, window)
  {
    var n := |h| - 1;
    if n > 0 {
      assert h[..n][n - 1] == h[n - 1] && SizeAt(h, n, window) == |Trailing(h[..n], window)|;
    }
  }

  lemma PacedPrefix(h: seq<Time>, n: nat, window: real)
    requires Paced(h, window) && n <= |h|
    ensures Paced(h[..n], window)
  {
    forall k | 0 < k < n ensures h[..n][k] >= h[..n][k - 1] + Backoff(SizeAt(h[..n], k, window)) {
      SizeOfPrefix(h, n, k, window);
    }
  }

  lemma {:induction false} RunsOfPrefix(h: seq<Time>, n: nat, start: Time, window: real)
    requires n <= |h|
    ensures RunsOf(h, start, window)[..n] == RunsOf(h[..n], start, window)
  {
    if n < |h| {
      var last := |h| - 1;
      RunsOfPrefix(h[..last], n, start, window);
      assert h[..last][..n] == h[..n];
    } else {
      assert h[..n] == h;
    }
  }

  /**
   * Every paced history that exceeds the budget is one the supervisor runs into:
   * there are run times on which it gives up along that history, at its end if
   * the budget was not exceeded before.
   */
  method GiveUpAlong(h: seq<Time>, window: real, budget: nat) returns (gaveUp: bool, history: seq<Time>)
    requires Paced(h, window) && h != [] && |Trailing(h, window)| > budget
    ensures gaveUp && history <= h
    ensures WithinBudget(h, window, budget, |h| - 1) ==> history == h
  {
    var runs := RunsOf(h, h[0], window);
    RunsArePossible(h, h[0], window);
    gaveUp, history := Supervise(runs, h[0], window, budget);
    GivesUpAlong(h, runs, window, budget, gaveUp, history);
  }

  lemma GivesUpAlong(h: seq<Time>, runs: seq<real>, window: real, budget: nat, gaveUp: bool, g: seq<Time>)
    requires Paced(h, window) && h != [] && |Trailing(h, window)| > budget && runs == RunsOf(h, h[0], window)
    requires Supervised(runs, h[0], window, budget, gaveUp, g)
    ensures gaveUp && g <= h && (WithinBudget(h, window, budget, |h| - 1) ==> g == h)
  {
    ReproducedIsPrefix(h, |g|, window);
    GivenUpAt(h, g, window, budget);
  }

  lemma ReproducedIsPrefix(h: seq<Time>, n: nat, window: real)
    requires h != [] && n <= |h|
    ensures CrashTimes(RunsOf(h, h[0], window)[..n], h[0], window) == h[..n]
  {
    RunsOfPrefix(h, n, h[0], window);
    RunsLeadBack(h[..n], h[0], window);
  }

  lemma GivenUpAt(h: seq<Time>, g: seq<Time>, window: real, budget: nat)
    requires h != [] && g <= h && |Trailing(h, window)| > budget
    ensures |g| == |h| ==> g == h
    ensures g != [] && |Trailing(g, window)| > budget && WithinBudget(h, window, budget, |h| - 1) ==> g == h
  {
    assert h[..|g|] == g;
    if g != [] {
      SizeOfPrefix(h, |g|, |g|, window);
      SizeAtEnd(g, window);
    }
  }

  /** The back-off starts at two seconds and doubles up to thirty. */
  lemma BackoffDoubles(n: nat)
    ensures Backoff(1) == 2.0
    ensures n > 0 ==> Backoff(n + 1) == if 2.0 * Backoff(n) < 30.0 then 2.0 * Backoff(n) else 30.0
  {
    assert Pow2(1) == 2;
  }

  lemma FirstTotals()
    ensures Total(4) == 30.0 && Total(5) == 60.0
  {
    assert Pow2(1) == 2;
    assert Pow2(2) == 4;
    assert Pow2(3) == 8;
    assert Pow2(4) == 16;
    assert Pow2(5) == 32;
    assert Total(2) == 6.0;
  }

  /** 2 + 4 + 8 + 16 + 30 seconds of back-off already fill the default window: six crashes never fit. */
  lemma DefaultsNeverGiveUp(h: seq<Time>)
    requires Paced(h, 60.0) && h != []
    ensures |Trailing(h, 60.0)| <= 5
  {
    FirstTotals();
    GivesUpExactly(60.0, 5);
  }

  /** The default budget is the least: with one less, five crashes in a row are enough. */
  lemma SmallerBudgetGivesUp()
    ensures exists h :: Paced(h, 60.0) && h != [] && |Trailing(h, 60.0)| > 4
  {
    FirstTotals();
    GivesUpExactly(60.0, 4);
  }
}
