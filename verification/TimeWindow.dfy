// Placing a day's fire times in a window: the duration parser and the
// constructive min-gap sampler, over exact reals and for every random outcome.
module TimeWindow {
  import opened Base
  import opened Jobs
  import opened Workflows

  // ---- durations

  datatype Unit = Seconds | Minutes | Hours

  /** One match of the token pattern: digits and a unit letter. */
  datatype Token = Token(value: nat, unit: Unit)

  function UnitSeconds(u: Unit): nat {
    match u
    case Seconds => 1
    case Minutes => 60
    case Hours => 3600
  }

  function TotalOf(tokens: seq<Token>, u: Unit): nat {
    if tokens == [] then 0
    else TotalOf(tokens[..|tokens| - 1], u) + (if tokens[|tokens| - 1].unit == u then tokens[|tokens| - 1].value else 0)
  }

  /** The length in seconds; an error exactly when no token carries a positive amount. */
  function Duration(tokens: seq<Token>): Result<real, string> {
    var total := TotalOf(tokens, Seconds) + 60 * TotalOf(tokens, Minutes) + 3600 * TotalOf(tokens, Hours);
    if total == 0 then Err("cannot parse duration") else Ok(total as real)
  }

  /** No token carries a positive amount. */
  predicate NoAmount(tokens: seq<Token>) {
    forall i :: 0 <= i < |tokens| ==> tokens[i].value == 0
  }

  lemma {:induction false} NoAmountIsZero(tokens: seq<Token>)
    ensures NoAmount(tokens) <==> TotalOf(tokens, Seconds) == TotalOf(tokens, Minutes) == TotalOf(tokens, Hours) == 0
  {
    if tokens != [] {
      var n := |tokens| - 1;
      NoAmountIsZero(tokens[..n]);
      assert NoAmount(tokens) <==> NoAmount(tokens[..n]) && tokens[n].value == 0;
      match tokens[n].unit {
        case Seconds =>
        case Minutes =>
        case Hours =>
      }
    }
  }

  lemma DurationFailsExactly(tokens: seq<Token>)
    ensures Duration(tokens).Err? <==> NoAmount(tokens)
  {
    NoAmountIsZero(tokens);
  }

  lemma {:induction false} TotalAdds(a: seq<Token>, b: seq<Token>, u: Unit)
    ensures TotalOf(a + b, u) == TotalOf(a, u) + TotalOf(b, u)
  {
    if b == [] {
      assert a + b == a;
    } else {
      var n := |b| - 1;
      assert (a + b)[..|a| + n] == a + b[..n];
      TotalAdds(a, b[..n], u);
    }
  }

  /** A duration in seconds, nothing at all counting as zero. */
  function Length(tokens: seq<Token>): real {
    var d := Duration(tokens);
    if d.Ok? then d.value else 0.0
  }

  /** Durations add up token by token, and a token is worth its amount in seconds, minutes or hours. */
  lemma DurationsAdd(a: seq<Token>, b: seq<Token>, amount: nat)
    ensures Length(a + b) == Length(a) + Length(b)
    ensures Length([Token(amount, Seconds)]) == amount as real
    ensures Length([Token(amount, Minutes)]) == 60.0 * amount as real
    ensures Length([Token(amount, Hours)]) == 60.0 * Length([Token(amount, Minutes)])
  {
    TotalAdds(a, b, Seconds);
    TotalAdds(a, b, Minutes);
    TotalAdds(a, b, Hours);
    forall u | u in {Seconds, Minutes, Hours}
      ensures TotalOf([Token(amount, u)], Seconds) == (if u == Seconds then amount else 0)
      ensures TotalOf([Token(amount, u)], Minutes) == (if u == Minutes then amount else 0)
      ensures TotalOf([Token(amount, u)], Hours) == (if u == Hours then amount else 0)
    {
      assert [Token(amount, u)][..0] == [];
    }
  }

  method ParseDuration(tokens: seq<Token>) returns (r: Result<real, string>)
    ensures r == Duration(tokens)
    ensures r.Ok? <==> exists i :: 0 <= i < |tokens| && tokens[i].value > 0
    ensures r.Ok? ==> r.value > 0.0
  {
    var total, matchedAny := 0, false;
    for n := 0 to |tokens|
      invariant matchedAny <==> n > 0
      invariant total == TotalOf(tokens[..n], Seconds) + 60 * TotalOf(tokens[..n],
          Minutes) + 3600 * TotalOf(tokens[..n], Hours)
      invariant total > 0 <==> exists i :: 0 <= i < n && tokens[i].value > 0
    {
      assert tokens[..n + 1][..n] == tokens[..n];
      total := total + tokens[n].value * UnitSeconds(tokens[n].unit);
      matchedAny := true;
    }
    assert tokens[..|tokens|] == tokens;
    if !matchedAny || total <= 0 {
      return Err("cannot parse duration");
    }
    r := Ok(total as real);
  }

  // ---- sampling

  /** What the count may be sampled as. */
  predicate Samples(count: Count, n: int) {
    match count
    case Fixed(k) => n == k
    case Range(min, max) => min <= n <= max
  }

  /** `draw(b, i)` is the i-th uniform draw from [0, b]: any value in range. */
  ghost predicate IsUniform(draw: (real, nat) -> real) {
    forall b, i :: b >= 0.0 ==> 0.0 <= draw(b, i) <= b
  }

  predicate Sorted(s: seq<real>) {
    forall i, j :: 0 <= i < j < |s| ==> s[i] <= s[j]
  }

  function Insert(x: real, s: seq<real>): seq<real> {
    if s == [] || x <= s[0] then [x] + s else [s[0]] + Insert(x, s[1..])
  }

  function Sort(s: seq<real>): seq<real> {
    if s == [] then [] else Insert(s[0], Sort(s[1..]))
  }

  lemma {:induction false} InsertPermutes(x: real, s: seq<real>)
    ensures multiset(Insert(x, s)) == multiset(s) + multiset{x}
  {
    if s == [] || x <= s[0] {
      assert multiset([x] + s) == multiset([x]) + multiset(s);
    } else {
      InsertPermutes(x, s[1..]);
      assert s == [s[0]] + s[1..];
      assert multiset([s[0]] + Insert(x, s[1..])) == multiset([s[0]]) + multiset(Insert(x, s[1..]));
    }
  }

  lemma {:induction false} InsertSorts(x: real, s: seq<real>)
    requires Sorted(s)
    ensures Sorted(Insert(x, s))
  {
    if s != [] && x > s[0] {
      InsertSorts(x, s[1..]);
      InsertBounded(x, s[1..], s[0]);
    }
  }

  lemma {:induction false} InsertBounded(x: real, s: seq<real>, low: real)
    requires low <= x && forall i :: 0 <= i < |s| ==> low <= s[i]
    ensures forall i :: 0 <= i < |Insert(x, s)| ==> low <= Insert(x, s)[i]
  {
    if s != [] && x > s[0] {
      InsertBounded(x, s[1..], low);
    }
  }

  lemma {:induction false} SortSorts(s: seq<real>)
    ensures Sorted(Sort(s)) && multiset(Sort(s)) == multiset(s)
  {
    if s != [] {
      SortSorts(s[1..]);
      InsertSorts(s[0], Sort(s[1..]));
      InsertPermutes(s[0], Sort(s[1..]));
      assert s == [s[0]] + s[1..];
    }
  }

  /** A sorted sequence is already its own sort. */
  lemma {:induction false} SortOfSorted(s: seq<real>)
    requires Sorted(s)
    ensures Sort(s) == s
  {
    if s != [] {
      SortOfSorted(s[1..]);
      assert s == [s[0]] + s[1..];
    }
  }

  // ---- expansion

  function EffectiveStart(start: Time, now: Option<Time>): Time {
    if now.Some? && now.value > start then now.value else start
  }

  /** The largest n that fits, at least zero. */
  function Feasible(width: real, gap: real): nat
    requires gap > 0.0
  {
    var n := (width / gap).Floor + 1;
    if n < 0 then 0 else n
  }

  function Reduced(n: int, width: real, gap: real): int
    requires gap > 0.0
  {
    if width < (n - 1) as real * gap then Feasible(width, gap) else n
  }

  function Draws(n: nat, free: real, draw: (real, nat) -> real): (drawn: seq<real>)
    ensures |drawn| == n && forall i :: 0 <= i < n ==> drawn[i] == draw(free, i)
  {
    seq(n, (i: nat) => draw(free, i))
  }

  function Offsets(n: nat, free: real, draw: (real, nat) -> real): seq<real> {
    Sort(Draws(n, free, draw))
  }

  function Expand(start: Time, end: Time, now: Option<Time>, sampled: int, minGap: Result<real, string>,
                  draw: (real, nat) -> real)
    : Result<seq<Time>, string>
    requires minGap.Ok? ==> minGap.value > 0.0
  {
    if now.Some? && now.value >= end then Ok([])
    else
      var eff := EffectiveStart(start, now);
      var width := end - eff;
      if width <= 0.0 || sampled <= 0 then Ok([])
      else if minGap.Err? then Err(minGap.error)
      else
        Ok(Schedule(eff, end, Reduced(sampled, width, minGap.value), minGap.value, draw))
  }

  /** The expansion fails exactly where there is something to place and no gap to place it with. */
  lemma ExpandFailsExactly(start: Time, end: Time, now: Option<Time>, sampled: int, tokens: seq<Token>,
                           draw: (real, nat) -> real)
    ensures Duration(tokens).Ok? ==> Duration(tokens).value > 0.0
    ensures Expand(start, end, now, sampled, Duration(tokens), draw).Err? <==>
              Open(start, end, now, sampled) && NoAmount(tokens)
  {
    DurationFailsExactly(tokens);
  }

  /** Sorted offsets into the free space, with the gaps added back in between. */
  function Schedule(eff: Time, end: Time, n: int, gap: real, draw: (real, nat) -> real): seq<Time> {
    if n <= 0 then []
    else
      var offsets := Offsets(n, end - eff - (n - 1) as real * gap, draw);
      seq(n, i requires 0 <= i < n => Placed(eff, offsets, gap, i))
  }

  function Placed(eff: Time, offsets: seq<real>, gap: real, i: nat): Time {
    eff + (if i < |offsets| then offsets[i] else 0.0) + i as real * gap
  }

  /** Consecutive times at least `gap` apart. */
  predicate Spaced(ts: seq<Time>, gap: real) {
    forall i :: 0 < i < |ts| ==> ts[i] - ts[i - 1] >= gap
  }

  predicate Within(ts: seq<Time>, lo: Time, hi: Time) {
    forall i :: 0 <= i < |ts| ==> lo <= ts[i] <= hi
  }

  /** There is something to place, and the window has not closed. */
  predicate Open(start: Time, end: Time, now: Option<Time>, sampled: int) {
    sampled > 0 && start < end && (now.Some? ==> now.value < end)
  }

  /** Times in the window, none of them past, consecutive ones at least `gap` apart. */
  predicate Fits(ts: seq<Time>, start: Time, end: Time, now: Option<Time>, gap: real) {
    && (forall i :: 0 <= i < |ts| ==> start <= ts[i] <= end && (now.Some? ==> now.value <= ts[i]))
    && (forall i :: 0 < i < |ts| ==> ts[i] - ts[i - 1] >= gap)
  }

  lemma FitsIsWithin(ts: seq<Time>, start: Time, end: Time, now: Option<Time>, gap: real)
    ensures Fits(ts, start, end, now, gap) <==> Spaced(ts, gap) && Within(ts, EffectiveStart(start, now), end)
  {
  }

  /** No more times fit than `Feasible` says. */
  lemma FitsAtMost(start: Time, end: Time, now: Option<Time>, sampled: int, gap: real)
    requires gap > 0.0 && Open(start, end, now, sampled)
    ensures forall ts :: Fits(ts, start, end, now, gap) ==> |ts| <= Feasible(end - EffectiveStart(start, now), gap)
  {
    forall ts | Fits(ts, start, end, now, gap) ensures |ts| <= Feasible(end - EffectiveStart(start, now), gap) {
      FitsIsWithin(ts, start, end, now, gap);
      FeasibleIsLargest(ts, EffectiveStart(start, now), end, gap);
    }
  }

  lemma FeasibleBounds(width: real, gap: real)
    requires gap > 0.0 && width > 0.0
    ensures var k := Feasible(width, gap); k >= 1 && (k - 1) as real * gap <= width < k as real * gap
  {
    var q := width / gap;
    assert q * gap == width;
    assert q > 0.0;
    var k := Feasible(width, gap);
    assert k == q.Floor + 1 && (k - 1) as real <= q < k as real;
    Between(width, gap, (k - 1) as real, k as real, q);
  }

  lemma Between(width: real, gap: real, low: real, high: real, q: real)
    requires gap > 0.0 && q * gap == width && low <= q < high
    ensures low * gap <= width < high * gap
  {
    MulMono(low, q, gap);
    MulLess(q, high, gap);
  }

  lemma MulMono(a: real, b: real, c: real)
    requires a <= b && c >= 0.0
    ensures a * c <= b * c
  {
  }

  lemma MulLess(a: real, b: real, c: real)
    requires a < b && c > 0.0
    ensures a * c < b * c
  {
  }

  lemma MulCancel(a: int, b: int, c: real)
    requires c > 0.0 && a as real * c < b as real * c
    ensures a < b
  {
    if b <= a {
      MulMono(b as real, a as real, c);
    }
  }

  lemma FewerGaps(m: int, k: int, width: real, gap: real)
    requires gap > 0.0 && m as real * gap <= width < k as real * gap
    ensures m < k
  {
    MulCancel(m, k, gap);
  }

  /** No min-gap schedule in the window has more times than the feasible count. */
  lemma FeasibleIsLargest(ts: seq<Time>, lo: Time, hi: Time, gap: real)
    requires gap > 0.0 && lo < hi && Spaced(ts, gap) && Within(ts, lo, hi)
    ensures |ts| <= Feasible(hi - lo, gap)
  {
    if ts != [] {
      SpacedSpan(ts, gap, |ts| - 1);
      FeasibleBounds(hi - lo, gap);
      FewerGaps(|ts| - 1, Feasible(hi - lo, gap), hi - lo, gap);
    }
  }

  lemma {:induction false} SpacedSpan(ts: seq<Time>, gap: real, k: nat)
    requires k < |ts| && Spaced(ts, gap)
    ensures ts[k] - ts[0] >= k as real * gap
  {
    if k > 0 {
      SpacedSpan(ts, gap, k - 1);
      assert k as real * gap == (k - 1) as real * gap + gap;
    }
  }

  /** The length is the sampled count, cut down to the largest count any min-gap schedule could have. */
  lemma ReducedIsMin(n: int, width: real, gap: real)
    requires gap > 0.0 && width > 0.0 && n > 0
    ensures Reduced(n, width, gap) == Min(n, Feasible(width, gap))
    ensures width - (Reduced(n, width, gap) - 1) as real * gap >= 0.0
  {
    FeasibleBounds(width, gap);
    var k := Feasible(width, gap);
    if width < (n - 1) as real * gap {
      MulCancel(k - 1, n - 1, gap);
    } else {
      FewerGaps(n - 1, k, width, gap);
    }
  }

  lemma OffsetsInRange(n: nat, free: real, draw: (real, nat) -> real)
    requires IsUniform(draw) && free >= 0.0
    ensures var s := Offsets(n, free, draw); |s| == n && Sorted(s) && forall i :: 0 <= i < n ==> 0.0 <= s[i] <= free
  {
    var drawn := Draws(n, free, draw);
    var s := Offsets(n, free, draw);
    SortSorts(drawn);
    assert |s| == |multiset(s)| == |drawn|;
    forall i | 0 <= i < n ensures 0.0 <= s[i] <= free {
      assert s[i] in multiset(s);
      assert s[i] in drawn;
    }
  }

  /**
   * For every trigger, time and random draw: the times are spaced, inside the
   * window and not past, and as many as sampled or as any such times could be.
   */
  lemma ExpandIsSpaced(start: Time, end: Time, now: Option<Time>, sampled: int, minGap: Result<real, string>,
                       draw: (real, nat) -> real)
    requires IsUniform(draw) && (minGap.Ok? ==> minGap.value > 0.0)
    ensures var r := Expand(start, end, now, sampled, minGap, draw);
            && (r.Err? <==> Open(start, end, now, sampled) && minGap.Err?)
            && (r.Ok? && !Open(start, end, now, sampled) ==> r.value == [])
            && (r.Ok? && Open(start, end, now, sampled) ==>
                  && Fits(r.value, start, end, now, minGap.value) && 0 < |r.value| <= sampled
                  && forall other :: Fits(other, start, end, now, minGap.value) && |other| <= sampled ==>
                       |other| <= |r.value|)
  {
    if Open(start, end, now, sampled) && minGap.Ok? {
      var eff := EffectiveStart(start, now);
      ExpandLength(start, end, now, sampled, minGap.value, draw);
      FitsAtMost(start, end, now, sampled, minGap.value);
    }
  }

  lemma ExpandLength(start: Time, end: Time, now: Option<Time>, sampled: int, gap: real, draw: (real, nat) -> real)
    requires IsUniform(draw) && gap > 0.0 && Open(start, end, now, sampled)
    ensures var r := Expand(start, end, now, sampled, Ok(gap), draw);
            && r.Ok? && Fits(r.value, start, end, now, gap)
            && |r.value| == Min(sampled, Feasible(end - EffectiveStart(start, now), gap)) > 0
  {
    var eff := EffectiveStart(start, now);
    var n := Reduced(sampled, end - eff, gap);
    ReducedIsMin(sampled, end - eff, gap);
    FeasibleBounds(end - eff, gap);
    ScheduleIsSpaced(eff, end, n, gap, draw);
    FitsIsWithin(Schedule(eff, end, n, gap, draw), start, end, now, gap);
  }

  lemma ScheduleIsSpaced(eff: Time, end: Time, n: int, gap: real, draw: (real, nat) -> real)
    requires IsUniform(draw) && gap > 0.0 && n > 0 && end - eff - (n - 1) as real * gap >= 0.0
    ensures var ts := Schedule(eff, end, n, gap, draw); |ts| == n && Spaced(ts, gap) && Within(ts, eff, end)
  {
    var free := end - eff - (n - 1) as real * gap;
    OffsetsInRange(n, free, draw);
    PlacedIsSpaced(eff, end, Offsets(n, free, draw), gap);
  }

  lemma PlacedIsSpaced(eff: Time, end: Time, offsets: seq<real>, gap: real)
    requires offsets != [] && gap > 0.0 && Sorted(offsets)
    requires forall i :: 0 <= i < |offsets| ==> 0.0 <= offsets[i] <= end - eff - (|offsets| - 1) as real * gap
    ensures var ts := seq(|offsets|, i requires 0 <= i < |offsets| => Placed(eff, offsets, gap, i));
            Spaced(ts, gap) && Within(ts, eff, end)
  {
    var n := |offsets|;
    var ts := seq(n, i requires 0 <= i < n => Placed(eff, offsets, gap, i));
    forall i | 0 < i < n ensures ts[i] - ts[i - 1] >= gap {
      assert i as real * gap == (i - 1) as real * gap + gap;
    }
    forall i | 0 <= i < n ensures eff <= ts[i] <= end {
      PlacedIsWithin(eff, end, offsets, gap, i);
    }
  }

  lemma PlacedIsWithin(eff: Time, end: Time, offsets: seq<real>, gap: real, i: nat)
    requires gap > 0.0 && i < |offsets| && 0.0 <= offsets[i] <= end - eff - (|offsets| - 1) as real * gap
    ensures eff <= Placed(eff, offsets, gap, i) <= end
  {
    var last := |offsets| - 1;
    MulMono(i as real, last as real, gap);
    MulMono(0.0, i as real, gap);
  }

  /** Conversely any such times, if no more of them could be placed, are the outcome of some draws. */
  lemma EveryScheduleIsReachable(start: Time, end: Time, now: Option<Time>, sampled: int, gap: real, ts: seq<Time>)
    returns (draw: (real, nat) -> real)
    requires gap > 0.0 && Open(start, end, now, sampled)
    requires Fits(ts, start, end, now, gap) && |ts| <= sampled
    requires forall other :: Fits(other, start, end, now, gap) && |other| <= sampled ==> |other| <= |ts|
    ensures IsUniform(draw) && Expand(start, end, now, sampled, Ok(gap), draw) == Ok(ts)
  {
    var eff := EffectiveStart(start, now);
    ExpandLength(start, end, now, sampled, gap, (b, i) => 0.0);
    FitsIsWithin(ts, start, end, now, gap);
    FeasibleIsLargest(ts, eff, end, gap);
    ReducedIsMin(sampled, end - eff, gap);
    draw := DrawsOf(eff, end, gap, ts);
  }

  lemma DrawsOf(eff: Time, end: Time, gap: real, ts: seq<Time>) returns (draw: (real, nat) -> real)
    requires gap > 0.0 && ts != [] && Spaced(ts, gap) && Within(ts, eff, end)
    ensures IsUniform(draw) && Schedule(eff, end, |ts|, gap, draw) == ts
  {
    var free := end - eff - (|ts| - 1) as real * gap;
    var offsets := seq(|ts|, i requires 0 <= i < |ts| => ts[i] - eff - i as real * gap);
    OffsetsOfSchedule(ts, eff, end, gap, offsets);
    draw := Replay(offsets, free);
    ReplayIsOffsets(offsets, free);
    PlacedBack(ts, eff, gap, offsets);
  }

  /** The draws whose outcome is a given list of offsets. */
  function Replay(offsets: seq<real>, free: real): (real, nat) -> real {
    (b: real, i: nat) => if b == free && i < |offsets| then offsets[i] else 0.0
  }

  lemma ReplayIsOffsets(offsets: seq<real>, free: real)
    requires Sorted(offsets) && forall i :: 0 <= i < |offsets| ==> 0.0 <= offsets[i] <= free
    ensures IsUniform(Replay(offsets, free)) && Offsets(|offsets|, free, Replay(offsets, free)) == offsets
  {
    assert Draws(|offsets|, free, Replay(offsets, free)) == offsets;
    SortOfSorted(offsets);
  }

  lemma PlacedBack(ts: seq<Time>, eff: Time, gap: real, offsets: seq<real>)
    requires |offsets| == |ts| && forall i :: 0 <= i < |ts| ==> offsets[i] == ts[i] - eff - i as real * gap
    ensures seq(|ts|, i requires 0 <= i < |ts| => Placed(eff, offsets, gap, i)) == ts
  {
  }

  lemma OffsetsOfSchedule(ts: seq<Time>, eff: Time, end: Time, gap: real, offsets: seq<real>)
    requires ts != [] && gap > 0.0 && Spaced(ts, gap) && Within(ts, eff, end) && |offsets| == |ts|
    requires forall i :: 0 <= i < |ts| ==> offsets[i] == ts[i] - eff - i as real * gap
    ensures Sorted(offsets)
    ensures forall i :: 0 <= i < |ts| ==> 0.0 <= offsets[i] <= end - eff - (|ts| - 1) as real * gap
  {
    forall i, j | 0 <= i < j < |ts| ensures offsets[i] <= offsets[j] {
      OffsetsAscend(ts, eff, gap, offsets, i, j);
    }
    var last := |ts| - 1;
    assert 0.0 <= offsets[0] && offsets[last] <= end - eff - last as real * gap;
    assert forall i :: 0 <= i < |ts| ==> offsets[0] <= offsets[i] <= offsets[last];
  }

  lemma {:induction false} OffsetsAscend(ts: seq<Time>, eff: Time, gap: real, offsets: seq<real>, i: nat, j: nat)
    requires i <= j < |ts| && Spaced(ts, gap) && |offsets| == |ts|
    requires forall k :: 0 <= k < |ts| ==> offsets[k] == ts[k] - eff - k as real * gap
    ensures offsets[i] <= offsets[j]
    decreases j - i
  {
    if i < j {
      OffsetsAscend(ts, eff, gap, offsets, i, j - 1);
      assert j as real * gap == (j - 1) as real * gap + gap;
      assert ts[j] - ts[j - 1] >= gap;
    }
  }
}
