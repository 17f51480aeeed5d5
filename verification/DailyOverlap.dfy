// Expansions of one workflow and date that overlap. A call counts the jobs of the
// date, inserts and commits; what it inserts is invisible to others until then.
// All jobs of the date come from one call exactly when no two calls that have
// something to place both count zero before either commits.
module DailyOverlap {
  import opened Base
  import opened Jobs
  import opened Workflows
  import opened Inserts
  import opened Daily
  import DailyRuns

  /** The workflow and the date under consideration. */
  datatype Subject = Subject(w: nat, date: int)

  /**
   * A call: the expansion it runs, the schedule this computes if its count was
   * zero, how many calls had committed then, and the ids it has inserted. A call
   * that raises leaves nothing behind and takes no steps.
   */
  datatype Call = Call(expansion: DailyRuns.Step, slots: seq<Time>, zero: bool, seen: nat, ids: seq<nat>)

  datatype State = State(rows: Rows, open: map<nat, Call>, committed: seq<Call>)

  datatype Step =
    | Count(p: nat, expansion: DailyRuns.Step, slots: seq<Time>)
    | Commit(p: nat, ids: seq<nat>, rows: Rows)
    | Rollback(p: nat)
    | Other(rows: Rows)

  function Counted(k: Subject, rows: Rows): set<nat> {
    ExpandedOn(rows, k.w, k.date)
  }

  /** What a call inserts for the workflow: its schedule, unless it has counted some job. */
  function Placing(call: Call): seq<Time> {
    if call.zero then call.slots else []
  }

  /** One dated job for each slot, under new ids; no other new job is of this workflow and date. */
  ghost predicate Placed(k: Subject, rows: Rows, rows': Rows, row: Row, ids: seq<nat>, slots: seq<Time>) {
    && (forall id :: id in rows ==> id in rows' && rows'[id] == rows[id])
    && Distinct(ids) && |ids| == |slots|
    && (forall i :: 0 <= i < |ids| ==>
          && ids[i] !in rows && ids[i] in rows'
          && rows'[ids[i]] == NewPending(row.owner, k.w, row.account, slots[i], Some(k.date)))
    && (forall id :: id in Counted(k, rows') ==> id in rows || id in ids)
  }

  ghost predicate Enabled(k: Subject, s: State, step: Step) {
    match step
    case Count(p, expansion, slots) =>
      && p !in s.open && expansion.Expansion? && k.w in expansion.table
      && (Counted(k, s.rows) == {} ==> DailyRuns.Computes(expansion, k.w, k.date, slots))
    case Commit(p, ids, rows') =>
      && p in s.open && s.open[p].expansion.Expansion? && k.w in s.open[p].expansion.table
      && Placed(k, s.rows, rows', s.open[p].expansion.table[k.w], ids, Placing(s.open[p]))
    case Rollback(p) => p in s.open
    case Other(rows') => DailyRuns.KeepsDates(s.rows, rows')
  }

  ghost function Apply(k: Subject, s: State, step: Step): State
    requires Enabled(k, s, step)
  {
    match step
    case Count(p, expansion, slots) =>
      s.(open := s.open[p := Call(expansion, slots, Counted(k, s.rows) == {}, |s.committed|, [])])
    case Commit(p, ids, rows') => State(rows', s.open - {p}, s.committed + [s.open[p].(ids := ids)])
    case Rollback(p) => s.(open := s.open - {p})
    case Other(rows') => s.(rows := rows')
  }

  ghost predicate IsRun(k: Subject, states: seq<State>, steps: seq<Step>) {
    && |states| == |steps| + 1 && states[0].open == map[] && states[0].committed == []
    && Counted(k, states[0].rows) == {}
    && forall i :: 0 <= i < |steps| ==>
         Enabled(k, states[i], steps[i]) && states[i + 1] == Apply(k, states[i], steps[i])
  }

  /** An expansion in one piece, as `ExpandDaily` performs it, is a count and a commit with nothing in between. */
  lemma ExpansionIsACall(k: Subject, rows: Rows, step: DailyRuns.Step, rows': Rows, slots: seq<Time>)
    returns (ids: seq<nat>)
    requires step.Expansion? && k.w in step.table && step.day.date == k.date && DailyRuns.Takes(rows, step, rows')
    requires Counted(k, rows) == {} ==> DailyRuns.Computes(step, k.w, k.date, slots)
    ensures var call := Call(step, slots, Counted(k, rows) == {}, 0, []);
            Placed(k, rows, rows', step.table[k.w], ids, Placing(call))
  {
    ids := [];
    if Counted(k, rows) == {} {
      assert Fresh(step.table, rows, step.owner, k.date, k.w);
      assert Scheduled(rows, rows', step.day, k.w, step.table[k.w]);
      var first: nat :| Filled(rows, rows', k.w, step.table[k.w], first, slots, Some(k.date));
      ids := seq(|slots|, i requires 0 <= i < |slots| => first + i);
      assert forall i :: 0 <= i < |ids| ==> ids[i] == first + i;
      forall id | id in Counted(k, rows') ensures id in rows || id in ids {
        assert id in rows || ids[id - first] == id;
      }
    } else {
      SameExpanded(rows, rows', k.w, k.date);
    }
  }

  // ---- where each job of the date comes from

  /** The call has read what had committed, and counted zero only if none of that had placed a job. */
  ghost predicate CallOk(k: Subject, committed: seq<Call>, call: Call) {
    && call.seen <= |committed| && call.expansion.Expansion? && k.w in call.expansion.table
    && (call.zero ==>
          && DailyRuns.Computes(call.expansion, k.w, k.date, call.slots)
          && forall i :: 0 <= i < call.seen ==> committed[i].ids == [])
  }

  ghost predicate CallsOk(k: Subject, s: State) {
    && (forall p :: p in s.open ==> CallOk(k, s.committed, s.open[p]))
    && (forall i :: 0 <= i < |s.committed| ==>
          CallOk(k, s.committed, s.committed[i]) && s.committed[i].seen <= i)
  }

  /** The call's jobs are what it had to place, slot by slot. */
  ghost predicate Stands(k: Subject, rows: Rows, call: Call) {
    && Distinct(call.ids) && |call.ids| == |Placing(call)|
    && forall i :: 0 <= i < |call.ids| ==>
         call.ids[i] in Counted(k, rows) && rows[call.ids[i]].fireAt == Placing(call)[i]
  }

  ghost predicate AllStand(k: Subject, rows: Rows, committed: seq<Call>) {
    forall i :: 0 <= i < |committed| ==> Stands(k, rows, committed[i])
  }

  predicate Disjoint(a: Call, b: Call) {
    forall id :: id in a.ids ==> id !in b.ids
  }

  predicate Apart(committed: seq<Call>) {
    forall i, j :: 0 <= i < j < |committed| ==> Disjoint(committed[i], committed[j])
  }

  predicate Made(committed: seq<Call>, id: nat) {
    exists i :: 0 <= i < |committed| && id in committed[i].ids
  }

  ghost predicate Inv(k: Subject, s: State) {
    && CallsOk(k, s) && AllStand(k, s.rows, s.committed) && Apart(s.committed)
    && forall id :: id in Counted(k, s.rows) ==> Made(s.committed, id)
  }

  /** Rows that keep the jobs where they are keep what stands. */
  lemma RowsKeepStanding(k: Subject, rows: Rows, rows': Rows, committed: seq<Call>)
    requires AllStand(k, rows, committed)
    requires forall id :: id in rows ==> id in rows' && SameIdentity(rows[id], rows'[id])
    ensures AllStand(k, rows', committed)
  {
    forall i | 0 <= i < |committed| ensures Stands(k, rows', committed[i]) {
      assert Stands(k, rows, committed[i]);
    }
  }

  /** Committing more does not change what a call has read. */
  lemma CallStaysOk(k: Subject, committed: seq<Call>, more: seq<Call>, call: Call)
    requires CallOk(k, committed, call) && committed <= more
    ensures CallOk(k, more, call)
  {
  }

  lemma CommitKeepsCallsOk(k: Subject, s: State, p: nat, ids: seq<nat>, rows': Rows)
    requires CallsOk(k, s) && Enabled(k, s, Commit(p, ids, rows'))
    ensures CallsOk(k, Apply(k, s, Commit(p, ids, rows')))
  {
    var s' := Apply(k, s, Commit(p, ids, rows'));
    forall q | q in s'.open ensures CallOk(k, s'.committed, s'.open[q]) {
      CallStaysOk(k, s.committed, s'.committed, s.open[q]);
    }
    forall i | 0 <= i < |s'.committed|
      ensures CallOk(k, s'.committed, s'.committed[i]) && s'.committed[i].seen <= i
    {
      CallStaysOk(k, s.committed, s'.committed, if i < |s.committed| then s.committed[i] else s.open[p]);
    }
  }

  lemma AppendStands(k: Subject, rows: Rows, committed: seq<Call>, call: Call)
    requires AllStand(k, rows, committed) && Stands(k, rows, call)
    ensures AllStand(k, rows, committed + [call])
  {
    forall i | 0 <= i <= |committed| ensures Stands(k, rows, (committed + [call])[i]) {
    }
  }

  /** New ids are nobody else's. */
  lemma AppendApart(k: Subject, rows: Rows, committed: seq<Call>, call: Call)
    requires AllStand(k, rows, committed) && Apart(committed)
    requires forall id :: id in call.ids ==> id !in Counted(k, rows)
    ensures Apart(committed + [call])
  {
    forall i | 0 <= i < |committed| ensures Disjoint(committed[i], call) {
      assert Stands(k, rows, committed[i]);
    }
  }

  lemma AppendMade(committed: seq<Call>, call: Call, id: nat)
    requires Made(committed, id) || id in call.ids
    ensures Made(committed + [call], id)
  {
    if Made(committed, id) {
      var i :| 0 <= i < |committed| && id in committed[i].ids;
      assert id in (committed + [call])[i].ids;
    } else {
      assert id in (committed + [call])[|committed|].ids;
    }
  }

  lemma CommitKeepsInv(k: Subject, s: State, p: nat, ids: seq<nat>, rows': Rows)
    requires Inv(k, s) && Enabled(k, s, Commit(p, ids, rows'))
    ensures Inv(k, Apply(k, s, Commit(p, ids, rows')))
  {
    var call := s.open[p].(ids := ids);
    CommitKeepsCallsOk(k, s, p, ids, rows');
    RowsKeepStanding(k, s.rows, rows', s.committed);
    AppendStands(k, rows', s.committed, call);
    AppendApart(k, s.rows, s.committed, call);
    forall id | id in Counted(k, rows') ensures Made(s.committed + [call], id) {
      assert id in rows' && (id in s.rows ==> id in Counted(k, s.rows));
      AppendMade(s.committed, call, id);
    }
  }

  lemma OtherKeepsInv(k: Subject, s: State, rows': Rows)
    requires Inv(k, s) && DailyRuns.KeepsDates(s.rows, rows')
    ensures Inv(k, s.(rows := rows'))
  {
    DailyRuns.OtherKeepsSchedule(s.rows, rows', k.w, k.date);
    RowsKeepStanding(k, s.rows, rows', s.committed);
    assert CallsOk(k, s.(rows := rows'));
  }

  lemma StandingIsCounted(k: Subject, rows: Rows, call: Call)
    requires Stands(k, rows, call)
    ensures call.ids != [] ==> Counted(k, rows) != {}
  {
    if call.ids != [] {
      assert call.ids[0] in Counted(k, rows);
    }
  }

  lemma CountKeepsInv(k: Subject, s: State, p: nat, expansion: DailyRuns.Step, slots: seq<Time>)
    requires Inv(k, s) && Enabled(k, s, Count(p, expansion, slots))
    ensures Inv(k, Apply(k, s, Count(p, expansion, slots)))
  {
    var s' := Apply(k, s, Count(p, expansion, slots));
    forall i | 0 <= i < |s.committed| && Counted(k, s.rows) == {} ensures s.committed[i].ids == [] {
      assert Stands(k, s.rows, s.committed[i]);
      StandingIsCounted(k, s.rows, s.committed[i]);
    }
    forall q | q in s'.open ensures CallOk(k, s'.committed, s'.open[q]) {
      assert q != p ==> CallOk(k, s.committed, s.open[q]);
    }
    assert CallsOk(k, s');
  }

  lemma StepKeepsInv(k: Subject, s: State, step: Step)
    requires Inv(k, s) && Enabled(k, s, step)
    ensures Inv(k, Apply(k, s, step))
  {
    match step
    case Count(p, expansion, slots) => CountKeepsInv(k, s, p, expansion, slots);
    case Commit(p, ids, rows') => CommitKeepsInv(k, s, p, ids, rows');
    case Rollback(p) =>
    case Other(rows') => OtherKeepsInv(k, s, rows');
  }

  lemma {:induction false} RunKeepsInv(k: Subject, states: seq<State>, steps: seq<Step>)
    requires IsRun(k, states, steps)
    ensures Inv(k, states[|steps|])
  {
    if steps != [] {
      var n := |steps| - 1;
      RunKeepsInv(k, states[..n + 1], steps[..n]);
      StepKeepsInv(k, states[n], steps[n]);
    }
  }

  // ---- one call for each date

  /** All jobs of the date are the schedule of this call, each slot once. */
  ghost predicate MadeBy(k: Subject, rows: Rows, call: Call) {
    && DailyRuns.Computes(call.expansion, k.w, k.date, call.slots) && Distinct(call.ids) && |call.ids| == |call.slots|
    && (forall id :: id in Counted(k, rows) <==> id in call.ids)
    && forall i :: 0 <= i < |call.ids| ==> call.ids[i] in rows && rows[call.ids[i]].fireAt == call.slots[i]
  }

  ghost predicate FromOneCall(k: Subject, s: State) {
    Counted(k, s.rows) == {} || exists i :: 0 <= i < |s.committed| && MadeBy(k, s.rows, s.committed[i])
  }

  /** The call at `j` counts before the one at `i` commits, both count zero, and both have something to place. */
  predicate Clash(committed: seq<Call>, i: nat, j: nat) {
    && i < j < |committed| && committed[j].seen <= i
    && committed[i].zero && committed[j].zero && committed[i].slots != [] && committed[j].slots != []
  }

  /** A call that lacks a job another one has placed has not made them all. */
  lemma NotMadeAlone(k: Subject, rows: Rows, a: Call, call: Call)
    requires Stands(k, rows, a) && a.ids != [] && a.ids[0] !in call.ids
    ensures !MadeBy(k, rows, call)
  {
    assert a.ids[0] in Counted(k, rows);
  }

  lemma MadeOnce(committed: seq<Call>, i: nat, m: nat, id: nat)
    requires Apart(committed) && i < |committed| && m < |committed| && i != m && id in committed[i].ids
    ensures id !in committed[m].ids
  {
    assert if m < i then Disjoint(committed[m], committed[i]) else Disjoint(committed[i], committed[m]);
  }

  lemma ClashSplitsTheDate(k: Subject, s: State, i: nat, j: nat)
    requires AllStand(k, s.rows, s.committed) && Apart(s.committed) && Clash(s.committed, i, j)
    ensures !FromOneCall(k, s)
  {
    assert Stands(k, s.rows, s.committed[i]) && Stands(k, s.rows, s.committed[j]);
    assert s.committed[i].ids[0] in Counted(k, s.rows);
    forall m: nat | m < |s.committed| ensures !MadeBy(k, s.rows, s.committed[m]) {
      var other := if m == i then j else i;
      MadeOnce(s.committed, other, m, s.committed[other].ids[0]);
      NotMadeAlone(k, s.rows, s.committed[other], s.committed[m]);
    }
  }

  /** Without a clash, a call that has placed a job is the only one. */
  lemma OnlyOnePlaces(k: Subject, s: State, i: nat, j: nat)
    requires Inv(k, s) && i < |s.committed| && j < |s.committed| && forall a, b :: !Clash(s.committed, a, b)
    requires s.committed[i].ids != [] && s.committed[j].ids != []
    ensures i == j
  {
    assert Stands(k, s.rows, s.committed[i]) && Stands(k, s.rows, s.committed[j]);
    assert CallOk(k, s.committed, s.committed[i]) && CallOk(k, s.committed, s.committed[j]);
    assert !Clash(s.committed, i, j) && !Clash(s.committed, j, i);
  }

  /** A standing call whose jobs are all there are has made them. */
  lemma StandingMadeThem(k: Subject, rows: Rows, committed: seq<Call>, call: Call)
    requires Stands(k, rows, call) && CallOk(k, committed, call) && call.ids != []
    requires forall id :: id in Counted(k, rows) ==> id in call.ids
    ensures MadeBy(k, rows, call)
  {
    forall id | id in call.ids ensures id in Counted(k, rows) {
      var i :| 0 <= i < |call.ids| && call.ids[i] == id;
    }
  }

  lemma NoClashIsOneCall(k: Subject, s: State)
    requires Inv(k, s) && forall i, j :: !Clash(s.committed, i, j)
    ensures FromOneCall(k, s)
  {
    if Counted(k, s.rows) != {} {
      var id :| id in Counted(k, s.rows);
      assert Made(s.committed, id);
      var i: nat :| i < |s.committed| && id in s.committed[i].ids;
      forall other | other in Counted(k, s.rows) ensures other in s.committed[i].ids {
        assert Made(s.committed, other);
        var j: nat :| j < |s.committed| && other in s.committed[j].ids;
        OnlyOnePlaces(k, s, i, j);
      }
      StandingMadeThem(k, s.rows, s.committed, s.committed[i]);
    }
  }

  /**
   * In any run of calls and other transactions, all jobs of the workflow and date
   * come from one call exactly if no two calls clash.
   */
  lemma OneCallExactly(k: Subject, states: seq<State>, steps: seq<Step>)
    requires IsRun(k, states, steps)
    ensures FromOneCall(k, states[|steps|]) <==> forall i, j :: !Clash(states[|steps|].committed, i, j)
  {
    RunKeepsInv(k, states, steps);
    var s := states[|steps|];
    if i, j :| Clash(s.committed, i, j) {
      ClashSplitsTheDate(k, s, i, j);
    } else {
      NoClashIsOneCall(k, s);
    }
  }

  // ---- it happens

  const SOUND := Subject(1, 1)

  function SoundCall(slots: seq<Time>, ids: seq<nat>): Call {
    Call(DailyRuns.Expansion(map[1 := WindowRow("sound", "30m")], 0, OrdinaryDay()), slots, true, 0, ids)
  }

  function SoundRows(slots: seq<Time>, n: nat): Rows
    requires |slots| == 1 && n <= 2
  {
    var job := NewPending(0, 1, 0, slots[0], Some(1));
    if n == 0 then map[] else if n == 1 then map[5 := job] else map[5 := job, 6 := job]
  }

  function TwiceState(slots: seq<Time>, i: nat): State
    requires |slots| == 1 && i <= 4
  {
    var open := SoundCall(slots, []);
    if i == 0 then State(map[], map[], [])
    else if i == 1 then State(map[], map[1 := open], [])
    else if i == 2 then State(map[], map[1 := open, 2 := open], [])
    else if i == 3 then State(SoundRows(slots, 1), map[2 := open], [SoundCall(slots, [5])])
    else State(SoundRows(slots, 2), map[], [SoundCall(slots, [5]), SoundCall(slots, [6])])
  }

  function TwiceStep(slots: seq<Time>, i: nat): Step
    requires |slots| == 1 && i < 4
  {
    if i < 2 then Count(i + 1, SoundCall(slots, []).expansion, slots)
    else Commit(i - 1, [i + 3], SoundRows(slots, i - 1))
  }

  lemma TwiceCounts(slots: seq<Time>, i: nat)
    requires |slots| == 1 && i < 2 && DailyRuns.Computes(SoundCall(slots, []).expansion, 1, 1, slots)
    ensures Enabled(SOUND, TwiceState(slots, i), TwiceStep(slots, i))
    ensures Apply(SOUND, TwiceState(slots, i), TwiceStep(slots, i)) == TwiceState(slots, i + 1)
  {
    assert Counted(SOUND, map[]) == {};
  }

  lemma TwiceCommits(slots: seq<Time>, i: nat)
    requires |slots| == 1 && 2 <= i < 4
    ensures Enabled(SOUND, TwiceState(slots, i), TwiceStep(slots, i))
    ensures Apply(SOUND, TwiceState(slots, i), TwiceStep(slots, i)) == TwiceState(slots, i + 1)
  {
    var open := SoundCall(slots, []);
    assert TwiceState(slots, i).open[i - 1] == open;
    assert TwiceState(slots, i).open - {i - 1} == TwiceState(slots, i + 1).open;
  }

  /** Two calls for a workflow that asks for one job a day: both count zero, and the day has two. */
  lemma OverlappingCallsExpandTwice() returns (states: seq<State>, steps: seq<Step>)
    ensures IsRun(SOUND, states, steps) && OrdinaryDay().sampled(1) == 1
    ensures |Counted(SOUND, states[|steps|].rows)| == 2
  {
    var slots := SoundSchedule();
    states := seq(5, i requires 0 <= i < 5 => TwiceState(slots, i));
    steps := seq(4, i requires 0 <= i < 4 => TwiceStep(slots, i));
    forall i | 0 <= i < 4
      ensures Enabled(SOUND, states[i], steps[i]) && states[i + 1] == Apply(SOUND, states[i], steps[i])
    {
      if i < 2 {
        TwiceCounts(slots, i);
      } else {
        TwiceCommits(slots, i);
      }
    }
    assert Counted(SOUND, SoundRows(slots, 2)) == {5, 6};
  }

  lemma SoundSchedule() returns (slots: seq<Time>)
    ensures |slots| == 1 && DailyRuns.Computes(SoundCall(slots, []).expansion, 1, 1, slots)
  {
    ExpandsToOne(OrdinaryDay(), WindowRow("sound", "30m"));
    slots := ExpansionOf(OrdinaryDay(), 1, WindowRow("sound", "30m")).value;
  }
}
