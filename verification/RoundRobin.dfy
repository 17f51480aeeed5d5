// Picking the steps of a run: plain steps, a random variant, or the next variant
// in round-robin order from the counter stored with the workflow.
module RoundRobin {
  import opened Base
  import opened Workflows
  import opened Sync

  /** The variant the counter's old value selects. */
  function Pick(counter: nat, n: nat): (index: nat)
    requires n > 0
    ensures index < n
  {
    counter % n
  }

  predicate Mine(rows: Table, w: nat, owner: nat) {
    w in rows && rows[w].owner == owner
  }

  /** The counter after a bump, if there is a row to bump. */
  function BumpedRows(rows: Table, w: nat, owner: nat): Table {
    if Mine(rows, w, owner) then rows[w := Bumped(rows[w])] else rows
  }

  /** The plan can be selected from: a random index is one of the variants. */
  predicate CanSelect(plan: Plan, random: nat) {
    plan.variants != [] && !plan.roundRobin ==> random < |plan.variants|
  }

  /** Which steps a run gets, and what that does to the stored counter. */
  predicate Selected(plan: Plan, rows: Table, w: nat, owner: nat, random: nat, steps: seq<ActionStep>, rows': Table)
    requires CanSelect(plan, random)
  {
    if plan.variants == [] then steps == plan.steps && rows' == rows
    else if !plan.roundRobin then steps == plan.variants[random] && rows' == rows
    else
      && steps == plan.variants[if Mine(rows, w, owner) then Pick(rows[w].rrCounter, |plan.variants|) else 0]
      && rows' == BumpedRows(rows, w, owner)
  }

  /** `_select_steps`, for a plan the schema accepts. */
  method SelectSteps(plan: Plan, table: WorkflowTable, w: nat, owner: nat, random: nat)
    returns (steps: seq<ActionStep>, index: Option<nat>)
    requires table.Valid() && CanSelect(plan, random)
    modifies table
    ensures table.Valid() && table.nextId == old(table.nextId)
    ensures Selected(plan, old(table.rows), w, owner, random, steps, table.rows)
    ensures plan.variants != [] && plan.roundRobin && w in old(table.rows) && old(table.rows)[w].owner == owner ==>
              && w in table.rows && table.rows[w].rrCounter == old(table.rows)[w].rrCounter + 1
              && steps == plan.variants[old(table.rows)[w].rrCounter % |plan.variants|]
    ensures index == None <==> plan.variants == []
    ensures index.Some? ==> index.value < |plan.variants| && steps == plan.variants[index.value]
  {
    if plan.variants == [] {
      return plan.steps, None;
    }
    if plan.roundRobin {
      var bumped := table.BumpRrCounter(w, owner);
      var counter := if bumped.Some? then bumped.value else 1;
      var at := (counter - 1) % |plan.variants|;
      return plan.variants[at], Some(at);
    }
    return plan.variants[random], Some(random);
  }

  function Bumped(row: Row): Row {
    row.(rrCounter := row.rrCounter + 1)
  }

  // ---- fairness over any run

  /** What may happen to a workflow row: a pick, a reload that rewrites it, or a switch. */
  datatype Op = PickNext | Reload(wf: Workflow) | SetEnabled(enabled: bool)

  function After(row: Row, op: Op): Row {
    match op
    case PickNext => Bumped(row)
    case Reload(wf) => Updated(row, wf)
    case SetEnabled(enabled) => row.(enabled := enabled)
  }

  /** The variants picked along the way, out of `n`. */
  function Picks(row: Row, ops: seq<Op>, n: nat): seq<nat>
    requires n > 0
    decreases |ops|
  {
    if ops == [] then []
    else (if ops[0].PickNext? then [Pick(row.rrCounter, n)] else []) + Picks(After(row, ops[0]), ops[1..], n)
  }

  function CountOf(v: nat, picks: seq<nat>): nat {
    if picks == [] then 0 else (if picks[0] == v then 1 else 0) + CountOf(v, picks[1..])
  }

  /** Reloads and switches leave the rotation where it was. */
  lemma {:induction false} PicksAreConsecutive(row: Row, ops: seq<Op>, n: nat)
    requires n > 0
    ensures forall k :: 0 <= k < |Picks(row, ops, n)| ==> Picks(row, ops, n)[k] == (row.rrCounter + k) % n
    decreases |ops|
  {
    if ops != [] {
      PicksAreConsecutive(After(row, ops[0]), ops[1..], n);
    }
  }

  lemma PickAdvances(c: nat, n: nat)
    requires n > 0
    ensures Pick(c + 1, n) == if Pick(c, n) == n - 1 then 0 else Pick(c, n) + 1
  {
    var q, r := c / n, c % n;
    assert c == n * q + r;
    if r == n - 1 {
      assert c + 1 == n * (q + 1) + 0;
      Remainder(c + 1, n, q + 1, 0);
    } else {
      Remainder(c + 1, n, q, r + 1);
    }
  }

  lemma Remainder(c: nat, n: nat, q: nat, r: nat)
    requires n > 0 && r < n && c == n * q + r
    ensures c % n == r
  {
    Ordered(n, q, c / n, r, c % n);
    Ordered(n, c / n, q, c % n, r);
  }

  lemma {:induction false} Ordered(n: nat, a: nat, b: nat, r: nat, s: nat)
    requires r < n && s < n
    ensures a < b ==> n * a + r < n * b + s
  {
    if a + 1 < b {
      Ordered(n, a, b - 1, r, s);
    }
    Distribute(n, b - 1);
  }

  lemma Distribute(n: nat, b: int)
    ensures n * (b + 1) == n * b + n
  {
  }

  /** How far the rotation is past variant `v`, in picks; negative once `v` has had its turn. */
  function Offset(r: nat, v: nat, n: nat): int {
    if r <= v then r else r - n
  }

  lemma {:induction false} CountBalance(c: nat, picks: seq<nat>, v: nat, n: nat)
    requires v < n && forall k :: 0 <= k < |picks| ==> picks[k] == Pick(c + k, n)
    ensures n * CountOf(v, picks) == |picks| + Offset(Pick(c, n), v, n) - Offset(Pick(c + |picks|, n), v, n)
    decreases |picks|
  {
    if picks != [] {
      var rest := picks[1..];
      forall k | 0 <= k < |rest| ensures rest[k] == Pick(c + 1 + k, n) {
        assert rest[k] == picks[k + 1];
      }
      CountBalance(c + 1, rest, v, n);
      PickAdvances(c, n);
      assert picks[0] == Pick(c + 0, n);
      assert n * (1 + CountOf(v, rest)) == n + n * CountOf(v, rest);
    }
  }

  /**
   * Over any m consecutive picks of n variants, with reloads anywhere in between,
   * every variant is picked m / n times rounded down or up.
   */
  lemma EveryVariantGetsItsShare(row: Row, ops: seq<Op>, n: nat, v: nat)
    requires v < n
    ensures var m, count := |Picks(row, ops, n)|, CountOf(v, Picks(row, ops, n));
            n * count - n < m < n * count + n
  {
    PicksAreConsecutive(row, ops, n);
    CountBalance(row.rrCounter, Picks(row, ops, n), v, n);
  }
}
