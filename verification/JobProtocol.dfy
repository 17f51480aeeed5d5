// The job lifecycle as a protocol between concurrent ticks, immediate
// dispatches, cancellations and account workers.
//
// One step is one SQL statement, one commit, one queue operation or one
// single-statement transaction. A tick stages its writes and holds a row lock on
// each of them until it commits or rolls back; a statement sees the committed
// rows overlaid with its own staged ones, and waits (is not enabled) while a row
// it would change is locked by another transaction. Two ticks may therefore
// select overlapping candidates; only the status double-check in the claim keeps
// them apart.
module JobProtocol {
  import opened Base
  import opened Jobs

  datatype Key = Key(dispatcher: nat, account: nat)

  /** Everything ever put on the queue, and how much of it has been taken. */
  datatype Queue = Queue(history: seq<nat>, head: nat)

  datatype Phase =
    | Idle
    | Begun
    | SkipDone(now: Time, cutoff: Time)
    | Selected(now: Time, candidates: seq<nat>)
    | ClaimDone(claimed: seq<nat>)
    | Enqueuing(order: seq<nat>, sent: nat)

  datatype Tick = Tick(dispatcher: nat, phase: Phase, staged: Rows)

  datatype Worker = Worker(key: Key, hands: Option<nat>)

  datatype State = State(
    owner: nat,
    rows: Rows,
    ticks: map<nat, Tick>,
    queues: map<Key, Queue>,
    workers: map<nat, Worker>,
    dropped: set<nat>)

  datatype Step =
    | Begin(t: nat)
    | InsertCron(t: nat, id: nat, job: Job)
    | SkipOld(t: nat, now: Time, cutoff: Time)
    | Select(t: nat, limit: nat, candidates: seq<nat>)
    | ClaimSelected(t: nat, claimed: seq<nat>)
    | Commit(t: nat)
    | Rollback(t: nat)
    | Enqueue(t: nat)
    | Finish(t: nat)
    | Immediate(t: nat, id: nat, workflow: nat, account: nat, now: Time)
    | Create(id: nat, job: Job)
    | CancelOne(id: nat, who: nat, now: Time)
    | CancelMany(workflows: set<nat>, who: nat, now: Time)
    | Take(w: nat)
    | HandledWell(w: nat, run: Option<nat>, now: Time)
    | HandledBadly(w: nat, reason: string, run: Option<nat>, now: Time)
    | HandlerRaises(w: nat)

  function QueueOf(s: State, k: Key): Queue {
    if k in s.queues then s.queues[k] else Queue([], 0)
  }

  /** What the transaction of tick `t` sees. */
  function Visible(s: State, t: nat): Rows
    requires t in s.ticks
  {
    s.rows + s.ticks[t].staged
  }

  predicate FreshId(s: State, id: nat) {
    id !in s.rows && forall u :: u in s.ticks ==> id !in s.ticks[u].staged
  }

  predicate UnlockedFor(s: State, ids: set<nat>, t: nat) {
    forall u :: u in s.ticks && u != t ==> ids !! s.ticks[u].staged.Keys
  }

  predicate Unlocked(s: State, ids: set<nat>) {
    forall u :: u in s.ticks ==> ids !! s.ticks[u].staged.Keys
  }

  function CancelOneWrites(rows: Rows, id: nat, who: nat, now: Time): Rows {
    if id in rows && rows[id].owner == who && rows[id].status == Pending
    then map[id := Cancel(rows[id], now)] else map[]
  }

  predicate Holds(s: State, w: nat) {
    w in s.workers && s.workers[w].hands.Some?
  }

  ghost predicate Enabled(s: State, step: Step) {
    match step
    case Begin(t) => t in s.ticks && s.ticks[t].phase == Idle
    case InsertCron(t, id, job) =>
      && t in s.ticks && s.ticks[t].phase == Begun && FreshId(s, id)
      && WellStamped(job) && job.status == Pending && job.owner == s.owner
    case SkipOld(t, now, cutoff) =>
      t in s.ticks && s.ticks[t].phase == Begun && UnlockedFor(s, TooOld(Visible(s, t), s.owner, cutoff), t)
    case Select(t, limit, candidates) =>
      && t in s.ticks && s.ticks[t].phase.SkipDone?
      && IsCandidateList(Visible(s, t), s.owner, s.ticks[t].phase.now, s.ticks[t].phase.cutoff, limit, candidates)
    case ClaimSelected(t, claimed) =>
      && t in s.ticks && s.ticks[t].phase.Selected?
      && var hit := StillPending(Visible(s, t), s.ticks[t].phase.candidates);
         UnlockedFor(s, hit, t) && Distinct(claimed) && forall id :: id in claimed <==> id in hit
    case Commit(t) => t in s.ticks && s.ticks[t].phase.ClaimDone?
    case Rollback(t) => t in s.ticks && !s.ticks[t].phase.Idle? && !s.ticks[t].phase.Enqueuing?
    case Enqueue(t) =>
      && t in s.ticks && s.ticks[t].phase.Enqueuing? && s.ticks[t].phase.sent < |s.ticks[t].phase.order|
      && s.ticks[t].phase.order[s.ticks[t].phase.sent] in s.rows
    case Finish(t) =>
      t in s.ticks && s.ticks[t].phase.Enqueuing? && s.ticks[t].phase.sent == |s.ticks[t].phase.order|
    case Immediate(t, id, workflow, account, now) => t in s.ticks && s.ticks[t].phase == Idle && FreshId(s, id)
    case Create(id, job) => FreshId(s, id) && WellStamped(job) && job.status == Pending
    case CancelOne(id, who, now) => Unlocked(s, CancelOneWrites(s.rows, id, who, now).Keys)
    case CancelMany(workflows, who, now) => Unlocked(s, PendingOf(s.rows, workflows, who))
    case Take(w) =>
      && w in s.workers && s.workers[w].hands == None
      && QueueOf(s, s.workers[w].key).head < |QueueOf(s, s.workers[w].key).history|
    case HandledWell(w, run, now) => Holds(s, w) && Unlocked(s, {s.workers[w].hands.value})
    case HandledBadly(w, reason, run, now) => Holds(s, w) && Unlocked(s, {s.workers[w].hands.value})
    case HandlerRaises(w) => Holds(s, w)
  }

  function SetPhase(s: State, t: nat, phase: Phase): State
    requires t in s.ticks
  {
    s.(ticks := s.ticks[t := s.ticks[t].(phase := phase)])
  }

  function Stage(s: State, t: nat, writes: Rows, phase: Phase): State
    requires t in s.ticks
  {
    s.(ticks := s.ticks[t := s.ticks[t].(phase := phase, staged := s.ticks[t].staged + writes)])
  }

  function Release(s: State, w: nat): State
    requires w in s.workers
  {
    s.(workers := s.workers[w := s.workers[w].(hands := None)])
  }

  ghost function Apply(s: State, step: Step): State
    requires Enabled(s, step)
  {
    match step
    case Begin(t) => SetPhase(s, t, Begun)
    case InsertCron(t, id, job) => Stage(s, t, map[id := job], Begun)
    case SkipOld(t, now, cutoff) =>
      Stage(s, t, SkipWrites(Visible(s, t), s.owner, cutoff, now), SkipDone(now, cutoff))
    case Select(t, limit, candidates) =>
      SetPhase(s, t, if candidates == [] then ClaimDone([]) else Selected(s.ticks[t].phase.now, candidates))
    case ClaimSelected(t, claimed) =>
      Stage(s, t, ClaimWrites(Visible(s, t), s.ticks[t].phase.candidates, s.ticks[t].phase.now), ClaimDone(claimed))
    case Commit(t) =>
      s.(rows := Visible(s, t),
         ticks := s.ticks[t := s.ticks[t].(phase := Enqueuing(s.ticks[t].phase.claimed, 0), staged := map[])])
    case Rollback(t) => s.(ticks := s.ticks[t := s.ticks[t].(phase := Idle, staged := map[])])
    case Enqueue(t) =>
      var Enqueuing(order, sent) := s.ticks[t].phase;
      var k := Key(s.ticks[t].dispatcher, s.rows[order[sent]].account);
      var q := QueueOf(s, k);
      SetPhase(s, t, Enqueuing(order, sent + 1)).(queues := s.queues[k := q.(history := q.history + [order[sent]])])
    case Finish(t) => SetPhase(s, t, Idle)
    case Immediate(t, id, workflow, account, now) =>
      SetPhase(s, t, Enqueuing([id], 0)).(rows := s.rows[id := NewRunning(s.owner, workflow, account, now)])
    case Create(id, job) => s.(rows := s.rows[id := job])
    case CancelOne(id, who, now) => s.(rows := s.rows + CancelOneWrites(s.rows, id, who, now))
    case CancelMany(workflows, who, now) => s.(rows := s.rows + CancelWrites(s.rows, workflows, who, now))
    case Take(w) =>
      var k := s.workers[w].key;
      var q := QueueOf(s, k);
      s.(workers := s.workers[w := s.workers[w].(hands := Some(q.history[q.head]))],
         queues := s.queues[k := q.(head := q.head + 1)])
    case HandledWell(w, run, now) =>
      var id := s.workers[w].hands.value;
      Release(s, w).(rows := if id in s.rows && s.rows[id].owner == s.owner
                             then s.rows[id := Succeed(s.rows[id], run, now)] else s.rows)
    case HandledBadly(w, reason, run, now) =>
      var id := s.workers[w].hands.value;
      Release(s, w).(rows := if id in s.rows && s.rows[id].owner == s.owner
                             then s.rows[id := Fail(s.rows[id], reason, run, now)] else s.rows)
    case HandlerRaises(w) => Release(s, w).(dropped := s.dropped + {s.workers[w].hands.value})
  }

  /** A fresh process: nothing running, nothing queued, nothing in hand. */
  predicate Init(s: State) {
    && (forall id :: id in s.rows ==> WellStamped(s.rows[id]) && s.rows[id].status != Running)
    && (forall t :: t in s.ticks ==> s.ticks[t].phase == Idle && s.ticks[t].staged == map[])
    && (forall k :: k in s.queues ==> s.queues[k] == Queue([], 0))
    && (forall w :: w in s.workers ==> s.workers[w].hands == None)
    && s.dropped == {}
  }

  ghost predicate IsRun(states: seq<State>, steps: seq<Step>) {
    && |states| == |steps| + 1 && Init(states[0])
    && forall i :: 0 <= i < |steps| ==> Enabled(states[i], steps[i]) && states[i + 1] == Apply(states[i], steps[i])
  }

  // ---- where a running job can be

  datatype Place =
    | InOutbox(t: nat, i: nat)   // claimed and committed, not yet enqueued
    | InQueue(k: Key, i: nat)
    | InHands(w: nat)
    | Abandoned(id: nat)         // its handler raised

  predicate Present(s: State, p: Place) {
    match p
    case InOutbox(t, i) =>
      t in s.ticks && s.ticks[t].phase.Enqueuing? && s.ticks[t].phase.sent <= i < |s.ticks[t].phase.order|
    case InQueue(k, i) => k in s.queues && s.queues[k].head <= i < |s.queues[k].history|
    case InHands(w) => Holds(s, w)
    case Abandoned(id) => id in s.dropped
  }

  function Occupant(s: State, p: Place): nat
    requires Present(s, p)
  {
    match p
    case InOutbox(t, i) => s.ticks[t].phase.order[i]
    case InQueue(k, i) => s.queues[k].history[i]
    case InHands(w) => s.workers[w].hands.value
    case Abandoned(id) => id
  }

  predicate IsAt(s: State, p: Place, id: nat) {
    Present(s, p) && Occupant(s, p) == id
  }

  predicate IsRunning(s: State, id: nat) {
    id in s.rows && s.rows[id].status == Running
  }

  ghost predicate Somewhere(s: State, id: nat) {
    exists p :: IsAt(s, p, id)
  }

  /** Conservation: running jobs and places correspond one to one. */
  ghost predicate Conserved(s: State) {
    && (forall p, id :: IsAt(s, p, id) ==> IsRunning(s, id))
    && (forall p, q, id :: IsAt(s, p, id) && IsAt(s, q, id) ==> p == q)
    && (forall id :: IsRunning(s, id) ==> Somewhere(s, id))
  }

  // ---- the rest of the invariant

  predicate RowsOk(s: State) {
    forall id :: id in s.rows ==> WellStamped(s.rows[id]) && (IsRunning(s, id) ==> s.rows[id].owner == s.owner)
  }

  /** A staged write is a legal first step for the row it overlays. */
  predicate StagedOk(s: State, staged: Rows, id: nat)
    requires id in staged
  {
    && staged[id].owner == s.owner && WellStamped(staged[id])
    && (staged[id].status == Pending || staged[id].status == Running || staged[id].status == Skipped)
    && (id in s.rows ==>
          && s.rows[id].status == Pending && SameIdentity(s.rows[id], staged[id])
          && staged[id].status != Pending)
  }

  ghost predicate TickOk(s: State, t: nat)
    requires t in s.ticks
  {
    var Tick(_, phase, staged) := s.ticks[t];
    && (phase.Idle? || phase.Enqueuing? ==> staged == map[])
    && (forall id :: id in staged ==> StagedOk(s, staged, id))
    && (if phase.ClaimDone?
        then Distinct(phase.claimed)
             && forall id :: id in phase.claimed <==> id in staged && staged[id].status == Running
        else forall id :: id in staged ==> staged[id].status != Running)
    && (phase.Selected? ==> forall id :: id in phase.candidates ==> CandidateOk(s, staged, id))
    && (phase.Enqueuing? ==> phase.sent <= |phase.order|)
  }

  /** The claim does not test the owner again; a candidate's owner cannot change. */
  predicate CandidateOk(s: State, staged: Rows, id: nat) {
    && (id in s.rows || id in staged)
    && (id in s.rows ==> s.rows[id].owner == s.owner)
  }

  ghost predicate TicksOk(s: State) {
    && (forall t :: t in s.ticks ==> TickOk(s, t))
    && (forall t, u :: t in s.ticks && u in s.ticks && t != u ==> s.ticks[t].staged.Keys !! s.ticks[u].staged.Keys)
  }

  predicate Entered(s: State, k: Key, i: nat, id: nat) {
    k in s.queues && i < |s.queues[k].history| && s.queues[k].history[i] == id
  }

  /** No id enters a queue twice, and none still waiting has entered one. */
  ghost predicate HistoryOk(s: State) {
    && (forall k :: k in s.queues ==> s.queues[k].head <= |s.queues[k].history|)
    && (forall k, i, id :: Entered(s, k, i, id) ==> id in s.rows && s.rows[id].status != Pending)
    && (forall k, i, l, j, id :: Entered(s, k, i, id) && Entered(s, l, j, id) ==> k == l && i == j)
    && (forall k, i, t, j, id :: Entered(s, k, i, id) ==> !IsAt(s, InOutbox(t, j), id))
  }

  ghost predicate Inv(s: State) {
    RowsOk(s) && TicksOk(s) && HistoryOk(s) && Conserved(s)
  }

  // ---- preservation: rows and staged writes

  lemma CommittedWrites(s: State, writes: Rows, s': State)
    requires RowsOk(s) && TicksOk(s)
    requires s'.owner == s.owner && s'.rows == s.rows + writes && s'.ticks == s.ticks
    requires Unlocked(s, writes.Keys)
    requires forall id :: id in writes ==>
              WellStamped(writes[id]) && (writes[id].status == Running ==> writes[id].owner == s.owner)
    requires forall id :: id in writes && id in s.rows ==> SameIdentity(s.rows[id], writes[id])
    ensures RowsOk(s') && TicksOk(s')
  {
    forall t | t in s'.ticks ensures TickOk(s', t) {
      assert TickOk(s, t);
      assert writes.Keys !! s.ticks[t].staged.Keys;
      forall id | id in s'.ticks[t].staged ensures StagedOk(s', s'.ticks[t].staged, id) {
        assert StagedOk(s, s.ticks[t].staged, id);
        assert id in s.ticks[t].staged.Keys;
      }
      if s.ticks[t].phase.Selected? {
        forall id | id in s.ticks[t].phase.candidates ensures CandidateOk(s', s.ticks[t].staged, id) {
          assert CandidateOk(s, s.ticks[t].staged, id);
          assert id in s.rows || id in s.ticks[t].staged.Keys;
        }
      }
    }
  }

  lemma OneTickChanges(s: State, t: nat, s': State)
    requires RowsOk(s) && TicksOk(s) && t in s.ticks
    requires s'.owner == s.owner && s'.rows == s.rows && t in s'.ticks && s'.ticks == s.ticks[t := s'.ticks[t]]
    requires TickOk(s', t) && UnlockedFor(s, s'.ticks[t].staged.Keys, t)
    ensures RowsOk(s') && TicksOk(s')
  {
    forall u | u in s'.ticks ensures TickOk(s', u) {
      if u != t {
        assert TickOk(s, u);
        assert s'.ticks[u] == s.ticks[u];
        forall id | id in s'.ticks[u].staged ensures StagedOk(s', s'.ticks[u].staged, id) {
          assert StagedOk(s, s.ticks[u].staged, id);
        }
        if s.ticks[u].phase.Selected? {
          forall id | id in s.ticks[u].phase.candidates ensures CandidateOk(s', s.ticks[u].staged, id) {
            assert CandidateOk(s, s.ticks[u].staged, id);
          }
        }
      }
    }
  }

  lemma InsertKeeps(s: State, t: nat, id: nat, job: Job)
    requires RowsOk(s) && TicksOk(s) && Enabled(s, InsertCron(t, id, job))
    ensures var s' := Apply(s, InsertCron(t, id, job)); RowsOk(s') && TicksOk(s')
  {
    var s' := Apply(s, InsertCron(t, id, job));
    assert TickOk(s, t);
    forall i | i in s'.ticks[t].staged ensures StagedOk(s', s'.ticks[t].staged, i) {
      if i != id {
        assert StagedOk(s, s.ticks[t].staged, i);
      }
    }
    OneTickChanges(s, t, s');
  }

  lemma SkipKeeps(s: State, t: nat, now: Time, cutoff: Time)
    requires RowsOk(s) && TicksOk(s) && Enabled(s, SkipOld(t, now, cutoff))
    ensures var s' := Apply(s, SkipOld(t, now, cutoff)); RowsOk(s') && TicksOk(s')
  {
    var s' := Apply(s, SkipOld(t, now, cutoff));
    assert TickOk(s, t);
    forall i | i in s'.ticks[t].staged ensures StagedOk(s', s'.ticks[t].staged, i) {
      if i in s.ticks[t].staged {
        assert StagedOk(s, s.ticks[t].staged, i);
      }
    }
    OneTickChanges(s, t, s');
  }

  lemma ClaimKeeps(s: State, t: nat, claimed: seq<nat>)
    requires RowsOk(s) && TicksOk(s) && Enabled(s, ClaimSelected(t, claimed))
    ensures var s' := Apply(s, ClaimSelected(t, claimed)); RowsOk(s') && TicksOk(s')
  {
    var s' := Apply(s, ClaimSelected(t, claimed));
    assert TickOk(s, t);
    assert forall i :: i in s.ticks[t].phase.candidates ==> CandidateOk(s, s.ticks[t].staged, i);
    forall i | i in s'.ticks[t].staged ensures StagedOk(s', s'.ticks[t].staged, i) {
      if i in s.ticks[t].staged {
        assert StagedOk(s, s.ticks[t].staged, i);
      }
    }
    OneTickChanges(s, t, s');
  }

  lemma CommitKeeps(s: State, t: nat)
    requires RowsOk(s) && TicksOk(s) && Enabled(s, Commit(t))
    ensures var s' := Apply(s, Commit(t)); RowsOk(s') && TicksOk(s')
  {
    var s' := Apply(s, Commit(t));
    assert TickOk(s, t);
    var cleared := s.(ticks := s'.ticks);
    OneTickChanges(s, t, cleared);
    CommittedWrites(cleared, s.ticks[t].staged, s');
  }

  lemma SelectKeeps(s: State, t: nat, limit: nat, candidates: seq<nat>)
    requires RowsOk(s) && TicksOk(s) && Enabled(s, Select(t, limit, candidates))
    ensures var s' := Apply(s, Select(t, limit, candidates)); RowsOk(s') && TicksOk(s')
  {
    var s' := Apply(s, Select(t, limit, candidates));
    var Tick(_, phase, staged) := s.ticks[t];
    assert TickOk(s, t);
    forall id | id in candidates ensures CandidateOk(s', staged, id) {
      assert id in Due(Visible(s, t), s.owner, phase.now, phase.cutoff);
      assert id in staged ==> StagedOk(s, staged, id);
    }
    forall id | id in staged ensures StagedOk(s', staged, id) {
      assert StagedOk(s, staged, id);
    }
    OneTickChanges(s, t, s');
  }

  lemma ImmediateKeeps(s: State, t: nat, id: nat, workflow: nat, account: nat, now: Time)
    requires RowsOk(s) && TicksOk(s) && Enabled(s, Immediate(t, id, workflow, account, now))
    ensures var s' := Apply(s, Immediate(t, id, workflow, account, now)); RowsOk(s') && TicksOk(s')
  {
    var s' := Apply(s, Immediate(t, id, workflow, account, now));
    var mid := s.(rows := s'.rows);
    CommittedWrites(s, map[id := NewRunning(s.owner, workflow, account, now)], mid);
    assert TickOk(s, t);
    OneTickChanges(mid, t, s');
  }

  /** Steps that only move a tick from one phase to the next. */
  lemma PhaseKeeps(s: State, t: nat, phase: Phase, s': State)
    requires RowsOk(s) && TicksOk(s) && t in s.ticks
    requires s'.owner == s.owner && s'.rows == s.rows && s'.ticks == SetPhase(s, t, phase).ticks
    requires s.ticks[t].phase.Idle? || s.ticks[t].phase.Enqueuing?
    requires phase.Idle? || phase == Begun || (phase.Enqueuing? && phase.sent <= |phase.order|)
    ensures RowsOk(s') && TicksOk(s')
  {
    assert TickOk(s, t);
    OneTickChanges(s, t, s');
  }

  lemma HandledKeeps(s: State, w: nat, job: Job, s': State)
    requires RowsOk(s) && TicksOk(s) && Holds(s, w) && Unlocked(s, {s.workers[w].hands.value})
    requires IsRunning(s, s.workers[w].hands.value)
    requires var id := s.workers[w].hands.value;
             && s'.owner == s.owner && s'.ticks == s.ticks
             && id in s.rows && s'.rows == s.rows[id := job]
             && SameIdentity(s.rows[id], job) && WellStamped(job) && job.status != Running
    ensures RowsOk(s') && TicksOk(s')
  {
    CommittedWrites(s, map[s.workers[w].hands.value := job], s');
  }

  /** The worker's unguarded UPDATE always finds a running row of its own owner. */
  lemma HandsAreRunning(s: State, w: nat)
    requires RowsOk(s) && Conserved(s) && Holds(s, w)
    ensures var id := s.workers[w].hands.value; IsRunning(s, id) && s.rows[id].owner == s.owner
  {
    assert IsAt(s, InHands(w), s.workers[w].hands.value);
  }

  lemma CreateKeeps(s: State, id: nat, job: Job)
    requires RowsOk(s) && TicksOk(s) && Enabled(s, Create(id, job))
    ensures var s' := Apply(s, Create(id, job)); RowsOk(s') && TicksOk(s')
  {
    CommittedWrites(s, map[id := job], Apply(s, Create(id, job)));
  }

  lemma CancelOneKeeps(s: State, id: nat, who: nat, now: Time)
    requires RowsOk(s) && TicksOk(s) && Enabled(s, CancelOne(id, who, now))
    ensures var s' := Apply(s, CancelOne(id, who, now)); RowsOk(s') && TicksOk(s')
  {
    CommittedWrites(s, CancelOneWrites(s.rows, id, who, now), Apply(s, CancelOne(id, who, now)));
  }

  lemma CancelManyKeeps(s: State, workflows: set<nat>, who: nat, now: Time)
    requires RowsOk(s) && TicksOk(s) && Enabled(s, CancelMany(workflows, who, now))
    ensures var s' := Apply(s, CancelMany(workflows, who, now)); RowsOk(s') && TicksOk(s')
  {
    var writes := CancelWrites(s.rows, workflows, who, now);
    assert writes.Keys == PendingOf(s.rows, workflows, who);
    CommittedWrites(s, writes, Apply(s, CancelMany(workflows, who, now)));
  }

  lemma TickStepPreserves(s: State, step: Step)
    requires Enabled(s, step) && RowsOk(s) && TicksOk(s) && IsTickStep(step)
    ensures RowsOk(Apply(s, step)) && TicksOk(Apply(s, step))
  {
    var s' := Apply(s, step);
    match step {
      case Begin(t) => PhaseKeeps(s, t, Begun, s');
      case InsertCron(t, id, job) => InsertKeeps(s, t, id, job);
      case SkipOld(t, now, cutoff) => SkipKeeps(s, t, now, cutoff);
      case Select(t, limit, candidates) => SelectKeeps(s, t, limit, candidates);
      case ClaimSelected(t, claimed) => ClaimKeeps(s, t, claimed);
      case Commit(t) => CommitKeeps(s, t);
      case Rollback(t) => OneTickChanges(s, t, s');
      case Enqueue(t) => PhaseKeeps(s, t, s'.ticks[t].phase, s');
      case Finish(t) => PhaseKeeps(s, t, Idle, s');
      case Immediate(t, id, workflow, account, now) => ImmediateKeeps(s, t, id, workflow, account, now);
    }
  }

  predicate IsTickStep(step: Step) {
    || step.Begin? || step.InsertCron? || step.SkipOld? || step.Select? || step.ClaimSelected?
    || step.Commit? || step.Rollback? || step.Enqueue? || step.Finish? || step.Immediate?
  }

  lemma OtherStepPreserves(s: State, step: Step)
    requires Enabled(s, step) && RowsOk(s) && TicksOk(s) && Conserved(s) && !IsTickStep(step)
    ensures RowsOk(Apply(s, step)) && TicksOk(Apply(s, step))
  {
    var s' := Apply(s, step);
    match step {
      case Create(id, job) => CreateKeeps(s, id, job);
      case CancelOne(id, who, now) => CancelOneKeeps(s, id, who, now);
      case CancelMany(workflows, who, now) => CancelManyKeeps(s, workflows, who, now);
      case Take(w) => CommittedWrites(s, map[], s');
      case HandledWell(w, run, now) => HandsAreRunning(s, w); HandledKeeps(s, w, s'.rows[s.workers[w].hands.value], s');
      case HandledBadly(w, reason, run, now) =>
        HandsAreRunning(s, w);
        HandledKeeps(s, w, s'.rows[s.workers[w].hands.value], s');
      case HandlerRaises(w) => CommittedWrites(s, map[], s');
    }
  }

  // ---- preservation: places

  predicate SameRunning(s: State, s': State) {
    forall id :: id in s.rows.Keys + s'.rows.Keys ==> (IsRunning(s, id) <==> IsRunning(s', id))
  }

  ghost predicate SamePlacesBut(s: State, s': State, moved: set<Place>) {
    forall p, id :: p !in moved ==> (IsAt(s, p, id) <==> IsAt(s', p, id))
  }

  /** One job moves from place `a` to place `b`. */
  lemma TokenMoves(s: State, s': State, a: Place, b: Place, token: nat)
    requires Conserved(s) && SameRunning(s, s') && SamePlacesBut(s, s', {a, b})
    requires IsAt(s, a, token) && !Present(s, b) && !Present(s', a) && IsAt(s', b, token)
    ensures Conserved(s')
  {
    forall p, id | IsAt(s', p, id) ensures IsRunning(s', id) {
      if p == b { assert id == token; assert IsRunning(s, token); } else { assert IsAt(s, p, id); }
    }
    forall p, q, id | IsAt(s', p, id) && IsAt(s', q, id) ensures p == q {
      if p != b { assert IsAt(s, p, id); }
      if q != b { assert IsAt(s, q, id); }
    }
    forall id | IsRunning(s', id) ensures Somewhere(s', id) {
      assert IsRunning(s, id);
      var p :| IsAt(s, p, id);
      assert IsAt(s', if p == a then b else p, id);
    }
  }

  /** A running job leaves place `a` by becoming terminal. */
  lemma TokenLeaves(s: State, s': State, a: Place, token: nat)
    requires Conserved(s) && SamePlacesBut(s, s', {a})
    requires IsAt(s, a, token) && !Present(s', a) && !IsRunning(s', token)
    requires forall id :: id != token ==> (IsRunning(s, id) <==> IsRunning(s', id))
    ensures Conserved(s')
  {
    forall p, id | IsAt(s', p, id) ensures IsRunning(s', id) {
      assert IsAt(s, p, id);
    }
    forall id | IsRunning(s', id) ensures Somewhere(s', id) {
      var p :| IsAt(s, p, id);
      assert IsAt(s', p, id);
    }
  }

  /** Jobs that start running at commit appear in their tick's outbox. */
  lemma TokensAppear(s: State, s': State, t: nat, order: seq<nat>)
    requires Conserved(s) && Distinct(order)
    requires t in s.ticks && !s.ticks[t].phase.Enqueuing?
    requires t in s'.ticks && s'.ticks[t].phase == Enqueuing(order, 0)
    requires forall p: Place, id :: !(p.InOutbox? && p.t == t) ==> (IsAt(s, p, id) <==> IsAt(s', p, id))
    requires forall id :: IsRunning(s', id) <==> IsRunning(s, id) || id in order
    requires forall id :: id in order ==> !IsRunning(s, id)
    ensures Conserved(s')
  {
    forall p, id | IsAt(s', p, id) ensures IsRunning(s', id) {
      if p.InOutbox? && p.t == t { assert id in order; } else { assert IsAt(s, p, id); }
    }
    forall p, q, id | IsAt(s', p, id) && IsAt(s', q, id) ensures p == q {
      if !(p.InOutbox? && p.t == t) { assert IsAt(s, p, id); }
      if !(q.InOutbox? && q.t == t) { assert IsAt(s, q, id); }
    }
    forall id | IsRunning(s', id) ensures Somewhere(s', id) {
      if IsRunning(s, id) {
        var p :| IsAt(s, p, id);
        assert !(p.InOutbox? && p.t == t);
        assert IsAt(s', p, id);
      } else {
        var i: nat :| i < |order| && order[i] == id;
        assert IsAt(s', InOutbox(t, i), id);
      }
    }
  }

  lemma TokensStay(s: State, s': State)
    requires Conserved(s) && SamePlacesBut(s, s', {})
    requires forall id :: IsRunning(s, id) <==> IsRunning(s', id)
    ensures Conserved(s')
  {
    forall p, id | IsAt(s', p, id) ensures IsRunning(s', id) { assert IsAt(s, p, id); }
    forall p, q, id | IsAt(s', p, id) && IsAt(s', q, id) ensures p == q {
      assert IsAt(s, p, id) && IsAt(s, q, id);
    }
    forall id | IsRunning(s', id) ensures Somewhere(s', id) {
      var p :| IsAt(s, p, id);
      assert IsAt(s', p, id);
    }
  }

  // ---- every step moves each row along an edge or leaves it alone

  ghost predicate RowMoves(s: State, s': State, id: nat) {
    id in s.rows ==>
      && id in s'.rows && SameIdentity(s.rows[id], s'.rows[id])
      && (s'.rows[id] == s.rows[id] || Edge(s.rows[id].status, s'.rows[id].status))
  }

  lemma RowsMove(s: State, step: Step, id: nat)
    requires Enabled(s, step) && RowsOk(s) && TicksOk(s) && Conserved(s)
    ensures RowMoves(s, Apply(s, step), id)
  {
    match step {
      case Commit(t) =>
        assert TickOk(s, t);
        if id in s.rows && id in s.ticks[t].staged {
          assert StagedOk(s, s.ticks[t].staged, id);
        }
      case HandledWell(w, run, now) => HandsAreRunning(s, w);
      case HandledBadly(w, reason, run, now) => HandsAreRunning(s, w);
      case _ =>
    }
  }

  lemma AllRowsMove(s: State, step: Step)
    requires Enabled(s, step) && RowsOk(s) && TicksOk(s) && Conserved(s)
    ensures forall id :: RowMoves(s, Apply(s, step), id)
  {
    forall id ensures RowMoves(s, Apply(s, step), id) { RowsMove(s, step, id); }
  }

  // ---- conservation and history, step by step

  lemma EnqueueEffect(s: State, t: nat, p: Place, x: nat)
    requires Inv(s) && Enabled(s, Enqueue(t))
    ensures var Enqueuing(order, sent) := s.ticks[t].phase;
            var k := Key(s.ticks[t].dispatcher, s.rows[order[sent]].account);
            var n := |QueueOf(s, k).history|;
            var s' := Apply(s, Enqueue(t));
            && (p != InOutbox(t, sent) && p != InQueue(k, n) ==> (IsAt(s, p, x) <==> IsAt(s', p, x)))
            && (p.InQueue? && p != InQueue(k, n) ==> (Entered(s, p.k, p.i, x) <==> Entered(s', p.k, p.i, x)))
            && IsAt(s, InOutbox(t, sent), order[sent]) && !Present(s', InOutbox(t, sent))
            && !Present(s, InQueue(k, n)) && IsAt(s', InQueue(k, n), order[sent])
  {
    var Enqueuing(order, sent) := s.ticks[t].phase;
    var k := Key(s.ticks[t].dispatcher, s.rows[order[sent]].account);
    var n := |QueueOf(s, k).history|;
    var s' := Apply(s, Enqueue(t));
    if p.InQueue? && p.k == k && p.i < n {
      assert s'.queues[k].history[p.i] == s.queues[k].history[p.i];
    }
  }

  lemma EnqueueConserves(s: State, t: nat)
    requires Inv(s) && Enabled(s, Enqueue(t))
    ensures Conserved(Apply(s, Enqueue(t)))
  {
    var s' := Apply(s, Enqueue(t));
    var Enqueuing(order, sent) := s.ticks[t].phase;
    var k := Key(s.ticks[t].dispatcher, s.rows[order[sent]].account);
    var a, b := InOutbox(t, sent), InQueue(k, |QueueOf(s, k).history|);
    forall p, x ensures p !in {a, b} ==> (IsAt(s, p, x) <==> IsAt(s', p, x)) {
      EnqueueEffect(s, t, p, x);
    }
    EnqueueEffect(s, t, a, order[sent]);
    TokenMoves(s, s', a, b, order[sent]);
  }

  lemma EnqueueKeepsHistory(s: State, t: nat)
    requires Inv(s) && Enabled(s, Enqueue(t))
    ensures HistoryOk(Apply(s, Enqueue(t)))
  {
    var s' := Apply(s, Enqueue(t));
    var Enqueuing(order, sent) := s.ticks[t].phase;
    var id := order[sent];
    var k := Key(s.ticks[t].dispatcher, s.rows[id].account);
    var a, b := InOutbox(t, sent), InQueue(k, |QueueOf(s, k).history|);
    assert IsAt(s, a, id) && IsRunning(s, id);
    forall l, j, x ensures Entered(s', l, j, x) <==> Entered(s, l, j, x) || (InQueue(l, j) == b && x == id) {
      EnqueueEffect(s, t, InQueue(l, j), x);
    }
    forall l, j, u, m, x | Entered(s', l, j, x) ensures !IsAt(s', InOutbox(u, m), x) {
      EnqueueEffect(s, t, InOutbox(u, m), x);
    }
  }

  lemma TakeConserves(s: State, w: nat)
    requires Inv(s) && Enabled(s, Take(w))
    ensures var s' := Apply(s, Take(w)); Conserved(s') && HistoryOk(s')
  {
    var s' := Apply(s, Take(w));
    var k := s.workers[w].key;
    var q := QueueOf(s, k);
    var id := q.history[q.head];
    assert IsAt(s, InQueue(k, q.head), id);
    TokenMoves(s, s', InQueue(k, q.head), InHands(w), id);
    assert forall l, j, x :: Entered(s, l, j, x) <==> Entered(s', l, j, x);
    assert forall u, m, x :: IsAt(s, InOutbox(u, m), x) <==> IsAt(s', InOutbox(u, m), x);
  }

  /** Steps that touch neither the queues nor any outbox. */
  lemma HistoryStays(s: State, step: Step)
    requires Inv(s) && Enabled(s, step)
    requires var s' := Apply(s, step);
             s'.queues == s.queues && forall u, m, x :: IsAt(s', InOutbox(u, m), x) ==> IsAt(s, InOutbox(u, m), x)
    ensures HistoryOk(Apply(s, step))
  {
    var s' := Apply(s, step);
    AllRowsMove(s, step);
    forall l, j, x | Entered(s', l, j, x) ensures x in s'.rows && s'.rows[x].status != Pending {
      assert Entered(s, l, j, x) && RowMoves(s, s', x);
    }
    forall k, i, l, j, x | Entered(s', k, i, x) && Entered(s', l, j, x) ensures k == l && i == j {
      assert Entered(s, k, i, x) && Entered(s, l, j, x);
    }
    forall k, i, u, j, x | Entered(s', k, i, x) ensures !IsAt(s', InOutbox(u, j), x) {
      assert Entered(s, k, i, x);
    }
  }

  lemma HandledPlaces(s: State, w: nat, step: Step, p: Place, id: nat)
    requires Inv(s) && Enabled(s, step)
    requires (step.HandledWell? || step.HandledBadly?) && step.w == w
    ensures p != InHands(w) ==> (IsAt(s, p, id) <==> IsAt(Apply(s, step), p, id))
  {
  }

  lemma HandledConserves(s: State, w: nat, step: Step)
    requires Inv(s) && Enabled(s, step)
    requires (step.HandledWell? || step.HandledBadly?) && step.w == w
    ensures Conserved(Apply(s, step)) && HistoryOk(Apply(s, step))
  {
    var s' := Apply(s, step);
    HandsAreRunning(s, w);
    forall p, id ensures p != InHands(w) ==> (IsAt(s, p, id) <==> IsAt(s', p, id)) {
      HandledPlaces(s, w, step, p, id);
    }
    TokenLeaves(s, s', InHands(w), s.workers[w].hands.value);
    HistoryStays(s, step);
  }

  lemma RaiseConserves(s: State, w: nat)
    requires Inv(s) && Enabled(s, HandlerRaises(w))
    ensures var s' := Apply(s, HandlerRaises(w)); Conserved(s') && HistoryOk(s')
  {
    var s' := Apply(s, HandlerRaises(w));
    var id := s.workers[w].hands.value;
    assert IsAt(s, InHands(w), id);
    assert !Present(s, Abandoned(id)) by {
      if Present(s, Abandoned(id)) { assert IsAt(s, Abandoned(id), id); }
    }
    TokenMoves(s, s', InHands(w), Abandoned(id), id);
    HistoryStays(s, HandlerRaises(w));
  }

  /** A commit or an immediate dispatch puts newly running jobs in an outbox. */
  lemma OutboxFills(s: State, step: Step, t: nat, order: seq<nat>)
    requires Inv(s) && Enabled(s, step) && t in s.ticks && !s.ticks[t].phase.Enqueuing? && Distinct(order)
    requires var s' := Apply(s, step);
             && s'.queues == s.queues && s'.workers == s.workers && s'.dropped == s.dropped
             && t in s'.ticks && s'.ticks[t].phase == Enqueuing(order, 0)
             && s'.ticks == s.ticks[t := s'.ticks[t]]
             && (forall id :: IsRunning(s', id) <==> IsRunning(s, id) || id in order)
    requires forall id :: id in order && id in s.rows ==> s.rows[id].status == Pending
    ensures Conserved(Apply(s, step)) && HistoryOk(Apply(s, step))
  {
    var s' := Apply(s, step);
    TokensAppear(s, s', t, order);
    AllRowsMove(s, step);
    forall k, i, x | Entered(s', k, i, x) ensures Entered(s, k, i, x) && x in s'.rows && s'.rows[x].status != Pending {
      assert Entered(s, k, i, x) && RowMoves(s, s', x);
    }
    forall k, i, u, j, x | Entered(s', k, i, x) ensures !IsAt(s', InOutbox(u, j), x) {
      assert Entered(s, k, i, x);
      assert u == t && IsAt(s', InOutbox(u, j), x) ==> x in order;
      assert u != t ==> (IsAt(s', InOutbox(u, j), x) <==> IsAt(s, InOutbox(u, j), x));
    }
  }

  lemma CommitConserves(s: State, t: nat)
    requires Inv(s) && Enabled(s, Commit(t))
    ensures var s' := Apply(s, Commit(t)); Conserved(s') && HistoryOk(s')
  {
    var s' := Apply(s, Commit(t));
    var order := s.ticks[t].phase.claimed;
    assert TickOk(s, t);
    forall id ensures IsRunning(s', id) <==> IsRunning(s, id) || id in order {
      if id in s.ticks[t].staged { assert StagedOk(s, s.ticks[t].staged, id); }
    }
    forall id | id in order && id in s.rows ensures s.rows[id].status == Pending {
      assert StagedOk(s, s.ticks[t].staged, id);
    }
    OutboxFills(s, Commit(t), t, order);
  }

  lemma ImmediateConserves(s: State, t: nat, id: nat, workflow: nat, account: nat, now: Time)
    requires Inv(s) && Enabled(s, Immediate(t, id, workflow, account, now))
    ensures var s' := Apply(s, Immediate(t, id, workflow, account, now)); Conserved(s') && HistoryOk(s')
  {
    OutboxFills(s, Immediate(t, id, workflow, account, now), t, [id]);
  }

  /** Everything else leaves the running set and every place as it was. */
  predicate Quiet(step: Step) {
    || step.Begin? || step.InsertCron? || step.SkipOld? || step.Select? || step.ClaimSelected?
    || step.Rollback? || step.Finish? || step.Create? || step.CancelOne? || step.CancelMany?
  }

  /** The parts of the state that places are read from. */
  ghost predicate SamePlaceView(s: State, s': State) {
    && s'.queues == s.queues && s'.workers == s.workers && s'.dropped == s.dropped && s'.ticks.Keys == s.ticks.Keys
    && forall u :: u in s.ticks ==> SameOutbox(s.ticks[u].phase, s'.ticks[u].phase)
  }

  predicate SameOutbox(a: Phase, b: Phase) {
    a == b || (Drained(a) && Drained(b))
  }

  predicate Drained(phase: Phase) {
    phase.Enqueuing? ==> phase.sent >= |phase.order|
  }

  lemma ViewFixesPlaces(s: State, s': State, p: Place, id: nat)
    requires SamePlaceView(s, s')
    ensures IsAt(s, p, id) <==> IsAt(s', p, id)
  {
    if p.InOutbox? && p.t in s.ticks {
      assert SameOutbox(s.ticks[p.t].phase, s'.ticks[p.t].phase);
    }
  }

  lemma QuietView(s: State, step: Step)
    requires Enabled(s, step) && Quiet(step)
    ensures SamePlaceView(s, Apply(s, step))
  {
  }

  lemma QuietRunning(s: State, step: Step, id: nat)
    requires Inv(s) && Enabled(s, step) && Quiet(step)
    ensures IsRunning(s, id) <==> IsRunning(Apply(s, step), id)
  {
  }

  lemma QuietConserves(s: State, step: Step)
    requires Inv(s) && Enabled(s, step) && Quiet(step)
    ensures Conserved(Apply(s, step)) && HistoryOk(Apply(s, step))
  {
    var s' := Apply(s, step);
    forall id ensures IsRunning(s, id) <==> IsRunning(s', id) { QuietRunning(s, step, id); }
    QuietView(s, step);
    forall p, id ensures IsAt(s, p, id) <==> IsAt(s', p, id) { ViewFixesPlaces(s, s', p, id); }
    TokensStay(s, s');
    assert s'.queues == s.queues;
    HistoryStays(s, step);
  }

  lemma InvPreserved(s: State, step: Step)
    requires Inv(s) && Enabled(s, step)
    ensures Inv(Apply(s, step))
  {
    if IsTickStep(step) { TickStepPreserves(s, step); } else { OtherStepPreserves(s, step); }
    match step {
      case Enqueue(t) => EnqueueConserves(s, t); EnqueueKeepsHistory(s, t);
      case Take(w) => TakeConserves(s, w);
      case HandledWell(w, run, now) => HandledConserves(s, w, step);
      case HandledBadly(w, reason, run, now) => HandledConserves(s, w, step);
      case HandlerRaises(w) => RaiseConserves(s, w);
      case Commit(t) => CommitConserves(s, t);
      case Immediate(t, id, workflow, account, now) => ImmediateConserves(s, t, id, workflow, account, now);
      case _ => QuietConserves(s, step);
    }
  }

  // ---- theorems over whole runs

  lemma InitEstablishes(s: State)
    requires Init(s)
    ensures Inv(s)
  {
    forall p, id ensures !IsAt(s, p, id) { }
    assert forall id :: !IsRunning(s, id);
  }

  lemma {:induction false} RunKeepsInv(states: seq<State>, steps: seq<Step>, i: nat)
    requires IsRun(states, steps) && i < |states|
    ensures Inv(states[i])
  {
    if i == 0 {
      InitEstablishes(states[0]);
    } else {
      RunKeepsInv(states, steps, i - 1);
      InvPreserved(states[i - 1], steps[i - 1]);
    }
  }

  /** In every reachable state, a job is running exactly when it is in one place, and then in only one. */
  lemma RunningMeansOnePlace(states: seq<State>, steps: seq<Step>, i: nat, id: nat)
    requires IsRun(states, steps) && i < |states|
    ensures IsRunning(states[i], id) <==> Somewhere(states[i], id)
    ensures forall p, q :: IsAt(states[i], p, id) && IsAt(states[i], q, id) ==> p == q
  {
    RunKeepsInv(states, steps, i);
  }

  /**
   * A stored job is never lost, its identity never changes, its status only
   * follows the edges, and once terminal its row is frozen.
   */
  lemma {:induction false} LifecycleOverRun(states: seq<State>, steps: seq<Step>, i: nat, j: nat, id: nat)
    requires IsRun(states, steps) && i <= j < |states| && id in states[i].rows
    ensures id in states[j].rows && SameIdentity(states[i].rows[id], states[j].rows[id])
    ensures Leads(states[i].rows[id].status, states[j].rows[id].status)
    ensures Terminal(states[i].rows[id].status) ==> states[j].rows[id] == states[i].rows[id]
    decreases j
  {
    if i < j {
      LifecycleOverRun(states, steps, i, j - 1, id);
      RunKeepsInv(states, steps, j - 1);
      RowsMove(states[j - 1], steps[j - 1], id);
    }
  }

  /** One step of a run takes one edge of the lifecycle at most, for every job at once. */
  lemma EdgeAtATime(states: seq<State>, steps: seq<Step>, i: nat, id: nat)
    requires IsRun(states, steps) && i < |steps| && id in states[i].rows
    ensures id in states[i + 1].rows
    ensures states[i + 1].rows[id] == states[i].rows[id] ||
              Edge(states[i].rows[id].status, states[i + 1].rows[id].status)
  {
    RunKeepsInv(states, steps, i);
    RowsMove(states[i], steps[i], id);
  }

  predicate Grown(s: State, s': State, k: Key) {
    QueueOf(s, k).history <= QueueOf(s', k).history && QueueOf(s, k).head <= QueueOf(s', k).head
  }

  lemma QueueGrows(states: seq<State>, steps: seq<Step>, i: nat, k: Key)
    requires IsRun(states, steps) && i < |steps|
    ensures Grown(states[i], states[i + 1], k)
  {
    assert Enabled(states[i], steps[i]) && states[i + 1] == Apply(states[i], steps[i]);
  }

  lemma {:induction false} GrownChain(states: seq<State>, i: nat, j: nat, k: Key)
    requires i <= j < |states|
    requires forall m :: i <= m < j ==> Grown(states[m], states[m + 1], k)
    ensures Grown(states[i], states[j], k)
    decreases j
  {
    if i < j {
      GrownChain(states, i, j - 1, k);
      assert Grown(states[j - 1], states[j - 1 + 1], k);
    }
  }

  lemma QueuesGrowOverRun(states: seq<State>, steps: seq<Step>, i: nat, j: nat, k: Key)
    requires IsRun(states, steps) && i <= j < |states|
    ensures Grown(states[i], states[j], k)
  {
    forall m | i <= m < j ensures Grown(states[m], states[m + 1], k) {
      QueueGrows(states, steps, m, k);
    }
    GrownChain(states, i, j, k);
  }

  ghost function NextToEnqueue(s: State, t: nat): nat
    requires Enabled(s, Enqueue(t))
  {
    s.ticks[t].phase.order[s.ticks[t].phase.sent]
  }

  /** Two enqueue steps of a run, by whatever ticks, never enqueue the same job. */
  lemma EnqueuedAtMostOnce(states: seq<State>, steps: seq<Step>, m: nat, n: nat, t: nat, u: nat)
    requires IsRun(states, steps) && m < n < |steps|
    requires steps[m] == Enqueue(t) && steps[n] == Enqueue(u)
    ensures NextToEnqueue(states[m], t) != NextToEnqueue(states[n], u)
  {
    var s, s' := states[m], states[n];
    var id := NextToEnqueue(s, t);
    var k := Key(s.ticks[t].dispatcher, s.rows[id].account);
    var i := |QueueOf(s, k).history|;
    QueuesGrowOverRun(states, steps, m + 1, n, k);
    assert Entered(states[m + 1], k, i, id);
    assert Entered(s', k, i, id);
    RunKeepsInv(states, steps, n);
    assert IsAt(s', InOutbox(u, s'.ticks[u].phase.sent), NextToEnqueue(s', u));
  }

  ghost function NextToTake(s: State, w: nat): nat
    requires Enabled(s, Take(w))
  {
    var q := QueueOf(s, s.workers[w].key);
    q.history[q.head]
  }

  /** No job is handed to a worker twice: every job is executed at most once. */
  lemma TakenAtMostOnce(states: seq<State>, steps: seq<Step>, m: nat, n: nat, w: nat, v: nat)
    requires IsRun(states, steps) && m < n < |steps|
    requires steps[m] == Take(w) && steps[n] == Take(v)
    ensures NextToTake(states[m], w) != NextToTake(states[n], v)
  {
    var s, s' := states[m], states[n];
    var k, l := s.workers[w].key, s'.workers[v].key;
    QueuesGrowOverRun(states, steps, m + 1, n, k);
    RunKeepsInv(states, steps, n);
    var id := NextToTake(s, w);
    assert Entered(states[m + 1], k, QueueOf(s, k).head, id);
    assert Entered(s', k, QueueOf(s, k).head, id);
    assert Entered(s', l, QueueOf(s', l).head, NextToTake(s', v));
  }

  /** The terminal UPDATE has no status guard, and in no run does it need one. */
  lemma MarksFindRunningJobs(states: seq<State>, steps: seq<Step>, i: nat)
    requires IsRun(states, steps) && i < |steps| && (steps[i].HandledWell? || steps[i].HandledBadly?)
    ensures var s := states[i];
            Holds(s, steps[i].w) && IsRunning(s, s.workers[steps[i].w].hands.value)
            && s.rows[s.workers[steps[i].w].hands.value].owner == s.owner
  {
    RunKeepsInv(states, steps, i);
    HandsAreRunning(states[i], steps[i].w);
  }

  lemma StagedAreNotRunning(s: State, u: nat)
    requires u in s.ticks && TickOk(s, u)
    ensures forall id :: id in s.ticks[u].staged ==> !IsRunning(s, id)
  {
    assert forall id :: id in s.ticks[u].staged ==> StagedOk(s, s.ticks[u].staged, id);
  }

  /** A worker is never kept waiting for a lock: no tick stages a row that is in hand. */
  lemma MarksNeverBlock(states: seq<State>, steps: seq<Step>, i: nat, w: nat)
    requires IsRun(states, steps) && i < |states| && Holds(states[i], w)
    ensures Unlocked(states[i], {states[i].workers[w].hands.value})
  {
    RunKeepsInv(states, steps, i);
    HandsAreRunning(states[i], w);
    var s := states[i];
    forall u | u in s.ticks ensures {s.workers[w].hands.value} !! s.ticks[u].staged.Keys {
      StagedAreNotRunning(s, u);
    }
  }

  // ---- the race the claim guards against really happens

  const RACE_ROWS: Rows := map[7 := NewPending(0, 0, 0, 0.0, None)]

  /** Ticks 0 and 1 of one owner, with one due job between them. */
  function Race(phase0: Phase, phase1: Phase): State {
    State(0, RACE_ROWS, map[0 := Tick(0, phase0, map[]), 1 := Tick(1, phase1, map[])], map[], map[], {})
  }

  function Side(t: nat, mine: Phase, other: Phase): State {
    if t == 0 then Race(mine, other) else Race(other, mine)
  }

  ghost predicate Reaches(s: State, step: Step, s': State) {
    Enabled(s, step) && Apply(s, step) == s'
  }

  lemma RaceBegin(t: nat, other: Phase)
    requires t < 2
    ensures Reaches(Side(t, Idle, other), Begin(t), Side(t, Begun, other))
  {
    assert Apply(Side(t, Idle, other), Begin(t)).ticks == Side(t, Begun, other).ticks;
  }

  lemma NothingToSkip(s: State, t: nat, now: Time, cutoff: Time)
    requires t in s.ticks && s.ticks[t].phase == Begun && TooOld(Visible(s, t), s.owner, cutoff) == {}
    ensures Reaches(s, SkipOld(t, now, cutoff), SetPhase(s, t, SkipDone(now, cutoff)))
  {
    assert SkipWrites(Visible(s, t), s.owner, cutoff, now) == map[];
    assert s.ticks[t].staged + map[] == s.ticks[t].staged;
  }

  lemma RaceSkip(t: nat, other: Phase)
    requires t < 2
    ensures var s := Side(t, Begun, other);
            && TooOld(Visible(s, t), 0, -300.0) == {}
            && SetPhase(s, t, SkipDone(0.0, -300.0)) == Side(t, SkipDone(0.0, -300.0), other)
  {
    var s := Side(t, Begun, other);
    assert Visible(s, t) == RACE_ROWS;
    assert SetPhase(s, t, SkipDone(0.0, -300.0)).ticks == Side(t, SkipDone(0.0, -300.0), other).ticks;
  }

  lemma RaceCandidate()
    ensures IsCandidateList(RACE_ROWS, 0, 0.0, -300.0, 50, [7])
  {
    assert Due(RACE_ROWS, 0, 0.0, -300.0) == {7};
  }

  lemma RaceSelect(t: nat, other: Phase)
    requires t < 2
    ensures Reaches(Side(t, SkipDone(0.0, -300.0), other), Select(t, 50, [7]), Side(t, Selected(0.0, [7]), other))
  {
    var s := Side(t, SkipDone(0.0, -300.0), other);
    assert Visible(s, t) == RACE_ROWS;
    RaceCandidate();
    assert Apply(s, Select(t, 50, [7])).ticks == Side(t, Selected(0.0, [7]), other).ticks;
  }

  lemma RunOfSteps(states: seq<State>, steps: seq<Step>)
    requires |states| == |steps| + 1 && Init(states[0])
    requires forall i :: 0 <= i < |steps| ==> Reaches(states[i], steps[i], states[i + 1])
    ensures IsRun(states, steps)
  {
    forall i | 0 <= i < |steps| ensures Enabled(states[i], steps[i]) && states[i + 1] == Apply(states[i], steps[i]) {
      assert Reaches(states[i], steps[i], states[i + 1]);
    }
  }

  ghost predicate BothSelected(states: seq<State>, steps: seq<Step>, id: nat) {
    && IsRun(states, steps)
    && states[|steps|] == Race(Selected(0.0, [id]), Selected(0.0, [id]))
  }

  function RaceState(i: nat): State
    requires i <= 6
  {
    var skipped, selected := SkipDone(0.0, -300.0), Selected(0.0, [7]);
    [Race(Idle, Idle), Race(Begun, Idle), Race(Begun, Begun), Race(skipped, Begun),
     Race(skipped, skipped), Race(selected, skipped), Race(selected, selected)][i]
  }

  function RaceStep(i: nat): Step
    requires i < 6
  {
    [Begin(0), Begin(1), SkipOld(0, 0.0, -300.0), SkipOld(1, 0.0, -300.0), Select(0, 50, [7]), Select(1, 50, [7])][i]
  }

  lemma RaceAdvances(i: nat)
    requires i < 6
    ensures Reaches(RaceState(i), RaceStep(i), RaceState(i + 1))
  {
    if i < 2 { RaceBegins(i); } else if i < 4 { RaceSkips(i); } else { RaceSelects(i); }
  }

  lemma RaceBegins(i: nat)
    requires i < 2
    ensures Reaches(RaceState(i), RaceStep(i), RaceState(i + 1))
  {
    if i == 0 { RaceBegin(0, Idle); } else { RaceBegin(1, Begun); }
  }

  lemma RaceSkips(i: nat)
    requires 2 <= i < 4
    ensures Reaches(RaceState(i), RaceStep(i), RaceState(i + 1))
  {
    RaceSkip(i - 2, if i == 2 then Begun else SkipDone(0.0, -300.0));
    NothingToSkip(RaceState(i), i - 2, 0.0, -300.0);
  }

  lemma RaceSelects(i: nat)
    requires 4 <= i < 6
    ensures Reaches(RaceState(i), RaceStep(i), RaceState(i + 1))
  {
    if i == 4 { RaceSelect(0, SkipDone(0.0, -300.0)); } else { RaceSelect(1, Selected(0.0, [7])); }
  }

  /** Two ticks can select the same candidate before either claims it. */
  lemma CandidatesCanOverlap()
    ensures exists states: seq<State>, steps: seq<Step> :: BothSelected(states, steps, 7)
  {
    var states := seq(7, i requires 0 <= i < 7 => RaceState(i));
    var steps := seq(6, i requires 0 <= i < 6 => RaceStep(i));
    forall i | 0 <= i < |steps| ensures Reaches(states[i], steps[i], states[i + 1]) {
      RaceAdvances(i);
    }
    RunOfSteps(states, steps);
    assert BothSelected(states, steps, 7);
  }
}
