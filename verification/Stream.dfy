// One run's event log and one reader streaming it: history pages from the table,
// then messages from the bus, against a writer that commits and then publishes.
//
// The reader's queue may be registered at any moment; the code registers it at
// the first `__anext__`, that is, only once the live drain starts.
module Stream {
  import opened Base
  import opened EventBus

  datatype Event = Event(seqno: nat, kind: string)

  predicate IsFinish(e: Event) {
    e.kind == "run.finished"
  }

  predicate Sorted(events: seq<Event>) {
    forall i, j :: 0 <= i < j < |events| ==> events[i].seqno < events[j].seqno
  }

  /** Position k separates the events with seq <= since from the later ones. */
  predicate SplitsAt(log: seq<Event>, since: int, k: nat) {
    k <= |log| && forall i :: 0 <= i < |log| ==> (log[i].seqno > since <==> i >= k)
  }

  /** The rows `list_events` returns: seq > since, in order, limited; `k` is where they start. */
  function Page(log: seq<Event>, k: nat, limit: nat): seq<Event>
    requires k <= |log|
  {
    log[k..Min(k + limit, |log|)]
  }

  /** The history query always has an answer, and only one. */
  lemma {:induction false} SplitExists(log: seq<Event>, since: int) returns (k: nat)
    requires Sorted(log)
    ensures SplitsAt(log, since, k)
    ensures forall other: nat :: SplitsAt(log, since, other) ==> other == k
  {
    if log == [] {
      k := 0;
    } else {
      var n := |log| - 1;
      if log[n].seqno <= since {
        k := n + 1;
      } else {
        k := SplitExists(log[..n], since);
        assert forall i :: 0 <= i < n ==> log[i] == log[..n][i];
      }
    }
    forall other: nat | SplitsAt(log, since, other) ensures other == k {
      assert other < |log| ==> log[other].seqno > since;
      assert k < |log| ==> log[k].seqno > since;
    }
  }

  function Seqnos(events: seq<Event>): set<nat> {
    set i | 0 <= i < |events| :: events[i].seqno
  }

  lemma SeqnosOfConcat(a: seq<Event>, b: seq<Event>)
    ensures Seqnos(a + b) == Seqnos(a) + Seqnos(b)
  {
    forall n | n in Seqnos(a) + Seqnos(b) ensures n in Seqnos(a + b) {
      if n in Seqnos(a) {
        var i :| 0 <= i < |a| && a[i].seqno == n;
        assert (a + b)[i].seqno == n;
      } else {
        var i :| 0 <= i < |b| && b[i].seqno == n;
        assert (a + b)[|a| + i].seqno == n;
      }
    }
  }

  // ---- the reader: what `gen` does between two suspensions

  datatype Exit = FinishInHistory | RunAlreadyOver | FinishLive

  datatype Phase = Paging | Checking | Draining | Closed(exit: Exit)

  /** `paged` and `live` are what the two yields have emitted. */
  datatype Reader = Reader(since: int, limit: nat, phase: Phase, cursor: int, seen: set<nat>,
                           paged: seq<Event>, live: seq<Event>)
  {
    function Emitted(): seq<Event> {
      paged + live
    }
  }

  function NewReader(since: int, limit: nat): Reader {
    Reader(since, limit, Paging, since, {}, [], [])
  }

  predicate HasFinish(events: seq<Event>) {
    exists i :: 0 <= i < |events| && IsFinish(events[i])
  }

  function OnBatch(r: Reader, batch: seq<Event>): Reader {
    if batch == [] then r.(phase := Checking)
    else
      r.(paged := r.paged + batch,
         seen := r.seen + Seqnos(batch),
         cursor := batch[|batch| - 1].seqno,
         phase := if HasFinish(batch) then Closed(FinishInHistory)
                  else if |batch| < r.limit then Checking else Paging)
  }

  function OnStatus(r: Reader, terminal: bool): Reader {
    r.(phase := if terminal then Closed(RunAlreadyOver) else Draining)
  }

  function OnMessage(r: Reader, m: Event): Reader {
    if m.seqno in r.seen then r
    else r.(live := r.live + [m], phase := if IsFinish(m) then Closed(FinishLive) else r.phase)
  }

  // ---- writer, bus and reader together

  datatype Stage =
    | Quiet
    | Assigned(e: Event) // seq taken, not yet committed
    | Stored(e: Event)   // committed, not yet published

  datatype Writer = Writer(nextSeq: nat, stage: Stage, log: seq<Event>,
                           over: bool,     // run.finished has been given its seq
                           terminal: bool) // the run row is terminal

  datatype State = State(
    w: Writer,
    r: Reader,
    size: int,                    // bound of the reader's queue
    queue: Option<seq<Event>>,    // None until registered
    // history, for the statements below
    start: nat,                   // where the events after `since` start
    pos: nat,                     // where the events after `cursor` start
    horizon: nat,                 // length of the log at the last page read
    unheard: set<nat>)            // committed, but published to nobody, dropped, or never published

  datatype Step =
    | Begin(kind: string)
    | Store
    | Publish
    | LoseWrite   // the insert failed or was cancelled
    | LosePublish // cancelled between commit and publish
    | MarkTerminal
    | Register
    | ReadPage
    | CheckStatus
    | Deliver

  predicate LogFinished(log: seq<Event>) {
    log != [] && IsFinish(log[|log| - 1])
  }

  predicate Enabled(s: State, step: Step) {
    match step
    case Begin(kind) => s.w.stage == Quiet && !s.w.over
    case Store => s.w.stage.Assigned?
    case Publish => s.w.stage.Stored?
    case LoseWrite => s.w.stage.Assigned?
    case LosePublish => s.w.stage.Stored?
    case MarkTerminal => s.w.stage == Quiet && LogFinished(s.w.log)
    case Register => s.queue == None && !s.r.phase.Closed?
    case ReadPage => s.r.phase == Paging && SplitsAt(s.w.log, s.r.cursor, s.pos)
    case CheckStatus => s.r.phase == Checking
    case Deliver => s.r.phase == Draining && s.queue.Some? && s.queue.value != []
  }

  function BeginEvent(w: Writer, kind: string): Writer {
    w.(stage := Assigned(Event(w.nextSeq, kind)), nextSeq := w.nextSeq + 1, over := IsFinish(Event(w.nextSeq, kind)))
  }

  function Apply(s: State, step: Step): State
    requires Enabled(s, step)
  {
    match step
    case Begin(kind) => s.(w := BeginEvent(s.w, kind))
    case Store =>
      var e := s.w.stage.e;
      var log := s.w.log + [e];
      s.(w := s.w.(stage := Stored(e), log := log),
         start := if e.seqno > s.r.since then s.start else |log|,
         pos := if e.seqno > s.r.cursor then s.pos else |log|)
    case Publish =>
      if s.queue == None then s.(w := s.w.(stage := Quiet), unheard := s.unheard + {s.w.stage.e.seqno})
      else
        s.(w := s.w.(stage := Quiet),
           queue := Some(Offer(s.size, s.queue.value, s.w.stage.e)),
           unheard := if Full(s.size, s.queue.value) then s.unheard + {s.queue.value[0].seqno} else s.unheard)
    case LoseWrite => s.(w := s.w.(stage := Quiet))
    case LosePublish => s.(w := s.w.(stage := Quiet), unheard := s.unheard + {s.w.stage.e.seqno})
    case MarkTerminal => s.(w := s.w.(terminal := true))
    case Register => s.(queue := Some([]))
    case ReadPage =>
      var batch := Page(s.w.log, s.pos, s.r.limit);
      s.(r := OnBatch(s.r, batch), pos := s.pos + |batch|, horizon := |s.w.log|)
    case CheckStatus => s.(r := OnStatus(s.r, s.w.terminal))
    case Deliver => s.(queue := Some(s.queue.value[1..]), r := OnMessage(s.r, s.queue.value[0]))
  }

  predicate Init(s: State) {
    && s.w == Writer(0, Quiet, [], false, false)
    && s.r.limit > 0 && s.r == NewReader(s.r.since, s.r.limit)
    && s.queue == None && s.start == 0 && s.pos == 0 && s.horizon == 0 && s.unheard == {}
  }

  ghost predicate IsRun(states: seq<State>, steps: seq<Step>) {
    && |states| == |steps| + 1 && Init(states[0])
    && forall i :: 0 <= i < |steps| ==> Enabled(states[i], steps[i]) && states[i + 1] == Apply(states[i], steps[i])
  }

  // ---- invariants

  predicate WriterOk(w: Writer) {
    && Sorted(w.log)
    && (forall i :: 0 <= i < |w.log| ==> w.log[i].seqno < w.nextSeq)
    && (forall i :: 0 <= i < |w.log| && IsFinish(w.log[i]) ==> i == |w.log| - 1 && w.over && !w.stage.Assigned?)
    && (w.stage.Assigned? ==>
          && w.stage.e.seqno < w.nextSeq && (w.over <==> IsFinish(w.stage.e))
          && forall i :: 0 <= i < |w.log| ==> w.log[i].seqno < w.stage.e.seqno)
    && (w.stage.Stored? ==> w.log != [] && w.log[|w.log| - 1] == w.stage.e && (w.over <==> IsFinish(w.stage.e)))
    && (w.terminal ==> w.stage == Quiet && LogFinished(w.log))
  }

  /** What the history part has emitted: exactly the events between `since` and `cursor`. */
  ghost predicate PagesOk(log: seq<Event>, r: Reader, start: nat, pos: nat, horizon: nat) {
    && r.limit > 0 && r.since <= r.cursor && start <= pos && horizon <= |log|
    && SplitsAt(log, r.since, start) && SplitsAt(log, r.cursor, pos)
    && r.paged == log[start..pos] && r.seen == Seqnos(r.paged)
    && (r.paged == [] ==> r.cursor == r.since)
    && (r.paged != [] ==> r.cursor == r.paged[|r.paged| - 1].seqno)
    && (r.phase != Paging ==> horizon <= pos)
    && (r.phase == Closed(FinishInHistory) ==> LogFinished(r.paged))
    && (r.phase == Paging || r.phase == Checking || r.phase == Closed(FinishInHistory) ||
        r.phase == Closed(RunAlreadyOver)
        ==> r.live == [])
  }

  /** Everything in `events` is committed, and before the event about to be published. */
  predicate Published(w: Writer, events: seq<Event>) {
    forall i :: 0 <= i < |events| ==> events[i] in w.log && (w.stage.Stored? ==> events[i].seqno < w.stage.e.seqno)
  }

  ghost predicate LiveOk(w: Writer, r: Reader, queue: Option<seq<Event>>) {
    && Sorted(r.live) && Published(w, r.live)
    && (forall i :: 0 <= i < |r.live| ==> r.live[i].seqno !in r.seen)
    && (forall i :: 0 <= i < |r.live| && IsFinish(r.live[i]) ==> r.phase == Closed(FinishLive))
    && (r.phase == Closed(FinishLive) ==> LogFinished(r.live))
    && (queue == None ==> r.live == [])
    && (queue.Some? ==> Sorted(queue.value) && Published(w, queue.value) && Before(r.live, queue.value))
  }

  predicate Before(a: seq<Event>, b: seq<Event>) {
    forall i, j :: 0 <= i < |a| && 0 <= j < |b| ==> a[i].seqno < b[j].seqno
  }

  function Waiting(queue: Option<seq<Event>>): seq<Event> {
    if queue.Some? then queue.value else []
  }

  /** Where a committed event after `since` can be. */
  predicate Accounted(w: Writer, r: Reader, queue: Option<seq<Event>>, unheard: set<nat>, e: Event) {
    e.seqno in r.seen || e.seqno in unheard || e in r.live || e in Waiting(queue) || w.stage == Stored(e)
  }

  predicate NotIn(events: seq<Event>, unheard: set<nat>) {
    forall i :: 0 <= i < |events| ==> events[i].seqno !in unheard
  }

  /** Every such event is somewhere, and an unheard one never surfaces live. */
  ghost predicate CoverOk(w: Writer, r: Reader, queue: Option<seq<Event>>, unheard: set<nat>) {
    && (forall i :: 0 <= i < |w.log| && w.log[i].seqno > r.since ==> Accounted(w, r, queue, unheard, w.log[i]))
    && NotIn(r.live, unheard) && NotIn(Waiting(queue), unheard)
    && (!w.stage.Quiet? ==> w.stage.e.seqno !in unheard)
    && unheard <= Seqnos(w.log)
  }

  ghost predicate Inv(s: State) {
    && WriterOk(s.w)
    && PagesOk(s.w.log, s.r, s.start, s.pos, s.horizon)
    && LiveOk(s.w, s.r, s.queue)
    && CoverOk(s.w, s.r, s.queue, s.unheard)
  }

  lemma InitEstablishes(s: State)
    requires Init(s)
    ensures Inv(s)
  {
  }

  lemma StoreKeeps(s: State)
    requires Inv(s) && Enabled(s, Store)
    ensures Inv(Apply(s, Store))
  {
    var s' := Apply(s, Store);
    var log, e := s.w.log, s.w.stage.e;
    assert WriterOk(s'.w);
    assert forall i :: 0 <= i < |log| ==> s'.w.log[i] == log[i];
    StoreKeepsPages(s);
    assert CoverOk(s'.w, s'.r, s'.queue, s'.unheard) by {
      forall i | 0 <= i < |s'.w.log| && s'.w.log[i].seqno > s.r.since
        ensures Accounted(s'.w, s'.r, s'.queue, s'.unheard, s'.w.log[i])
      {
        if i < |log| { assert Accounted(s.w, s.r, s.queue, s.unheard, log[i]); }
      }
    }
  }

  lemma SliceOfAppend(log: seq<Event>, e: Event, from: nat, to: nat)
    requires from <= to <= |log|
    ensures (log + [e])[from..to] == log[from..to]
  {
  }

  lemma LastOfSlice(log: seq<Event>, from: nat, to: nat)
    requires from < to <= |log|
    ensures log[from..to][to - from - 1] == log[to - 1]
  {
  }

  lemma StoreKeepsPages(s: State)
    requires Inv(s) && Enabled(s, Store)
    ensures var s' := Apply(s, Store); PagesOk(s'.w.log, s'.r, s'.start, s'.pos, s'.horizon)
  {
    AppendKeepsPages(s.w.log, s.w.stage.e, s.r, s.start, s.pos, s.horizon);
  }

  /** A later event extends the log behind the pages; with nothing paged it may still precede `since`. */
  lemma AppendKeepsPages(log: seq<Event>, e: Event, r: Reader, start: nat, pos: nat, horizon: nat)
    requires PagesOk(log, r, start, pos, horizon) && forall i :: 0 <= i < |log| ==> log[i].seqno < e.seqno
    ensures PagesOk(log + [e], r, if e.seqno > r.since then start else |log| + 1,
                    if e.seqno > r.cursor then pos else |log| + 1, horizon)
  {
    if start == pos {
      assert r.paged == [];
    } else {
      LastOfSlice(log, start, pos);
      assert r.cursor == log[pos - 1].seqno;
      SliceOfAppend(log, e, start, pos);
    }
  }

  lemma PublishKeeps(s: State)
    requires Inv(s) && Enabled(s, Publish)
    ensures Inv(Apply(s, Publish))
  {
    var s' := Apply(s, Publish);
    if s.queue.Some? {
      OfferKeepsLive(s);
      OfferKeepsCover(s);
    } else {
      forall i | 0 <= i < |s.w.log| && s.w.log[i].seqno > s.r.since
        ensures Accounted(s'.w, s'.r, s'.queue, s'.unheard, s.w.log[i])
      {
        assert Accounted(s.w, s.r, s.queue, s.unheard, s.w.log[i]);
      }
    }
  }

  lemma SortedAppend(a: seq<Event>, e: Event)
    requires Sorted(a) && Before(a, [e])
    ensures Sorted(a + [e])
  {
    forall i, j | 0 <= i < j < |a + [e]| ensures (a + [e])[i].seqno < (a + [e])[j].seqno {
      if j == |a| { assert a[i].seqno < [e][0].seqno; }
    }
  }

  /** What a queue in good order looks like from the reader's side. */
  ghost predicate Orderly(w: Writer, live: seq<Event>, q: seq<Event>) {
    Sorted(q) && Published(w, q) && Before(live, q)
  }

  lemma OrderlyTail(w: Writer, live: seq<Event>, q: seq<Event>)
    requires Orderly(w, live, q) && q != []
    ensures Orderly(w, live, q[1..]) && Before([q[0]], q[1..])
  {
    assert forall i :: 0 <= i < |q[1..]| ==> q[1..][i] == q[i + 1];
  }

  lemma OrderlyAppend(w: Writer, live: seq<Event>, q: seq<Event>)
    requires Orderly(w, live, q) && w.stage.Stored? && w.stage.e in w.log && Published(w, live)
    ensures Orderly(w.(stage := Quiet), live, q + [w.stage.e])
  {
    SortedAppend(q, w.stage.e);
  }

  lemma OfferKeepsLive(s: State)
    requires Inv(s) && Enabled(s, Publish) && s.queue.Some?
    ensures var s' := Apply(s, Publish); LiveOk(s'.w, s'.r, s'.queue)
  {
    var q := s.queue.value;
    if Full(s.size, q) {
      OrderlyTail(s.w, s.r.live, q);
      OrderlyAppend(s.w, s.r.live, q[1..]);
    } else {
      OrderlyAppend(s.w, s.r.live, q);
    }
  }

  lemma OfferKeepsCover(s: State)
    requires Inv(s) && Enabled(s, Publish) && s.queue.Some?
    ensures var s' := Apply(s, Publish); CoverOk(s'.w, s'.r, s'.queue, s'.unheard)
  {
    var s' := Apply(s, Publish);
    var q, e := s.queue.value, s.w.stage.e;
    forall i | 0 <= i < |s.w.log| && s.w.log[i].seqno > s.r.since
      ensures Accounted(s'.w, s'.r, s'.queue, s'.unheard, s.w.log[i])
    {
      assert Accounted(s.w, s.r, s.queue, s.unheard, s.w.log[i]);
      OfferHolds(s.size, q, e, s.w.log[i]);
    }
    OfferHidesNothing(s.size, q, e, s.unheard);
    if Full(s.size, q) {
      assert q[0] in s.w.log && q[0].seqno < e.seqno;
      forall i | 0 <= i < |s.r.live| ensures s.r.live[i].seqno < q[0].seqno {
      }
    }
  }

  /** After an offer the queue holds what it held and the new message, but for the one dropped. */
  lemma OfferHolds(size: int, q: seq<Event>, e: Event, x: Event)
    ensures e in Offer(size, q, e)
    ensures x in q ==> x in Offer(size, q, e) || (Full(size, q) && x == q[0])
  {
    var q' := Offer(size, q, e);
    assert q'[|q'| - 1] == e;
    if x in q {
      var j :| 0 <= j < |q| && q[j] == x;
      if Full(size, q) {
        assert j > 0 ==> q'[j - 1] == x;
      } else {
        assert q'[j] == x;
      }
    }
  }

  lemma OfferHidesNothing(size: int, q: seq<Event>, e: Event, unheard: set<nat>)
    requires NotIn(q, unheard) && Sorted(q) && Before(q, [e]) && e.seqno !in unheard
    ensures NotIn(Offer(size, q, e), if Full(size, q) then unheard + {q[0].seqno} else unheard)
  {
    assert [e][0] == e;
  }

  lemma DeliverKeepsLive(s: State)
    requires Inv(s) && Enabled(s, Deliver)
    ensures var s' := Apply(s, Deliver); LiveOk(s'.w, s'.r, s'.queue)
  {
    OrderlyTail(s.w, s.r.live, s.queue.value);
    if s.queue.value[0].seqno !in s.r.seen {
      LiveTakesFirst(s.w, s.r.live, s.queue.value);
    }
  }

  lemma LiveTakesFirst(w: Writer, live: seq<Event>, q: seq<Event>)
    requires Sorted(live) && Published(w, live) && Orderly(w, live, q) && q != []
    ensures Sorted(live + [q[0]]) && Published(w, live + [q[0]]) && Orderly(w, live + [q[0]], q[1..])
  {
    SortedAppend(live, q[0]);
    OrderlyTail(w, live, q);
  }

  lemma DeliverKeepsCover(s: State)
    requires Inv(s) && Enabled(s, Deliver)
    ensures var s' := Apply(s, Deliver); CoverOk(s'.w, s'.r, s'.queue, s'.unheard)
  {
    var s' := Apply(s, Deliver);
    forall i | 0 <= i < |s.w.log| && s.w.log[i].seqno > s.r.since
      ensures Accounted(s'.w, s'.r, s'.queue, s'.unheard, s.w.log[i])
    {
      assert Accounted(s.w, s.r, s.queue, s.unheard, s.w.log[i]);
      DeliverAccounts(s, s.w.log[i]);
    }
    DeliverHidesNothing(s.queue.value, s.r.live, s.unheard);
  }

  lemma DeliverAccounts(s: State, x: Event)
    requires Enabled(s, Deliver) && Accounted(s.w, s.r, s.queue, s.unheard, x)
    ensures var s' := Apply(s, Deliver); Accounted(s'.w, s'.r, s'.queue, s'.unheard, x)
  {
    var s' := Apply(s, Deliver);
    var q, live' := s.queue.value, s'.r.live;
    if x in q {
      var j :| 0 <= j < |q| && q[j] == x;
      assert j > 0 ==> q[1..][j - 1] == x;
      assert |live'| > |s.r.live| ==> live'[|s.r.live|] == q[0];
    } else if x in s.r.live {
      var j :| 0 <= j < |s.r.live| && s.r.live[j] == x;
      assert live'[j] == x;
    }
  }

  lemma DeliverHidesNothing(q: seq<Event>, live: seq<Event>, unheard: set<nat>)
    requires q != [] && NotIn(q, unheard) && NotIn(live, unheard)
    ensures NotIn(q[1..], unheard) && NotIn(live + [q[0]], unheard)
  {
    assert forall j :: 0 <= j < |q[1..]| ==> q[1..][j] == q[j + 1];
  }

  /** A page with run.finished is the end of the log. */
  lemma PageFinish(log: seq<Event>, k: nat, limit: nat)
    requires k <= |log| && forall i :: 0 <= i < |log| && IsFinish(log[i]) ==> i == |log| - 1
    requires HasFinish(Page(log, k, limit))
    ensures LogFinished(Page(log, k, limit)) && k + |Page(log, k, limit)| == |log|
  {
    var batch := Page(log, k, limit);
    var i :| 0 <= i < |batch| && IsFinish(batch[i]);
    assert log[k + i] == batch[i];
  }

  lemma PageAdvances(log: seq<Event>, cursor: int, pos: nat, limit: nat)
    requires Sorted(log) && SplitsAt(log, cursor, pos) && Page(log, pos, limit) != []
    ensures var batch := Page(log, pos, limit);
            && batch[|batch| - 1] == log[pos + |batch| - 1]
            && SplitsAt(log, batch[|batch| - 1].seqno, pos + |batch|)
            && batch[|batch| - 1].seqno > cursor
  {
  }

  /** Paging stops only at the end of the log. */
  lemma PagingEnds(s: State)
    requires Inv(s) && Enabled(s, ReadPage)
    ensures var s' := Apply(s, ReadPage); s'.r.phase != Paging ==> s'.pos == |s.w.log|
  {
    var batch := Page(s.w.log, s.pos, s.r.limit);
    if batch != [] && HasFinish(batch) {
      PageFinish(s.w.log, s.pos, s.r.limit);
    }
  }

  lemma PagesExtend(log: seq<Event>, r: Reader, start: nat, pos: nat, horizon: nat)
    requires Sorted(log) && PagesOk(log, r, start, pos, horizon) && r.phase == Paging
    requires var batch := Page(log, pos, r.limit);
             && (HasFinish(batch) ==> LogFinished(batch))
             && (OnBatch(r, batch).phase != Paging ==> pos + |batch| == |log|)
    ensures var batch := Page(log, pos, r.limit); PagesOk(log, OnBatch(r, batch), start, pos + |batch|, |log|)
  {
    var batch := Page(log, pos, r.limit);
    if batch != [] {
      PageAdvances(log, r.cursor, pos, r.limit);
      BatchIsTaken(r, batch);
      MorePaged(log, r, OnBatch(r, batch), start, pos, horizon, batch);
    }
  }

  lemma BatchIsTaken(r: Reader, batch: seq<Event>)
    requires batch != [] && r.phase == Paging
    ensures var r' := OnBatch(r, batch);
            && r'.since == r.since && r'.limit == r.limit && r'.live == r.live
            && r'.paged == r.paged + batch && r'.seen == r.seen + Seqnos(batch)
            && r'.cursor == batch[|batch| - 1].seqno
            && (r'.phase == Paging || r'.phase == Checking || (r'.phase == Closed(FinishInHistory) && HasFinish(batch)))
  {
  }

  lemma MorePaged(log: seq<Event>, r: Reader, r': Reader, start: nat, pos: nat, horizon: nat, batch: seq<Event>)
    requires PagesOk(log, r, start, pos, horizon) && r.phase == Paging
    requires batch != [] && pos + |batch| <= |log| && batch == log[pos..pos + |batch|]
    requires r'.since == r.since && r'.limit == r.limit && r'.live == r.live
    requires r'.paged == r.paged + batch && r'.seen == r.seen + Seqnos(batch)
    requires r'.cursor == batch[|batch| - 1].seqno && r'.cursor >= r.cursor && SplitsAt(log, r'.cursor, pos + |batch|)
    requires r'.phase != Paging ==>
               && pos + |batch| == |log|
               && (r'.phase == Checking || (r'.phase == Closed(FinishInHistory) && LogFinished(batch)))
    ensures PagesOk(log, r', start, pos + |batch|, |log|)
  {
    SeqnosOfConcat(r.paged, batch);
    PagedGrows(log, r.paged, start, pos, batch);
  }

  lemma PagedGrows(log: seq<Event>, paged: seq<Event>, start: nat, pos: nat, batch: seq<Event>)
    requires start <= pos && pos + |batch| <= |log| && paged == log[start..pos] && batch == log[pos..pos + |batch|]
    requires batch != []
    ensures paged + batch == log[start..pos + |batch|]
    ensures (paged + batch)[|paged + batch| - 1] == batch[|batch| - 1]
  {
  }

  lemma PageKeepsPages(s: State)
    requires Inv(s) && Enabled(s, ReadPage)
    ensures var s' := Apply(s, ReadPage); PagesOk(s'.w.log, s'.r, s'.start, s'.pos, s'.horizon)
  {
    PagingEnds(s);
    FinishEndsPage(s);
    PageTaken(s);
    PagesExtend(s.w.log, s.r, s.start, s.pos, s.horizon);
  }

  lemma FinishEndsPage(s: State)
    requires Inv(s) && Enabled(s, ReadPage)
    ensures HasFinish(Page(s.w.log, s.pos, s.r.limit)) ==> LogFinished(Page(s.w.log, s.pos, s.r.limit))
  {
    if HasFinish(Page(s.w.log, s.pos, s.r.limit)) {
      PageFinish(s.w.log, s.pos, s.r.limit);
    }
  }

  lemma PageTaken(s: State)
    requires s.pos <= |s.w.log| && Enabled(s, ReadPage)
    ensures var s', batch := Apply(s, ReadPage), Page(s.w.log, s.pos, s.r.limit);
            && s'.w == s.w && s'.r == OnBatch(s.r, batch) && s'.start == s.start && s'.pos == s.pos + |batch|
            && s'.horizon == |s.w.log|
  {
  }

  lemma PageKeepsCover(s: State)
    requires Inv(s) && Enabled(s, ReadPage)
    ensures var s' := Apply(s, ReadPage); CoverOk(s'.w, s'.r, s'.queue, s'.unheard)
  {
    var s' := Apply(s, ReadPage);
    forall i | 0 <= i < |s.w.log| && s.w.log[i].seqno > s.r.since
      ensures Accounted(s'.w, s'.r, s'.queue, s'.unheard, s.w.log[i])
    {
      assert Accounted(s.w, s.r, s.queue, s.unheard, s.w.log[i]);
    }
  }

  lemma DeliverKeeps(s: State)
    requires Inv(s) && Enabled(s, Deliver)
    ensures Inv(Apply(s, Deliver))
  {
    LiveKeepsPages(s.w.log, s.r, s.start, s.pos, s.horizon, s.queue.value[0]);
    DeliverKeepsLive(s);
    DeliverKeepsCover(s);
  }

  lemma LiveKeepsPages(log: seq<Event>, r: Reader, start: nat, pos: nat, horizon: nat, m: Event)
    requires PagesOk(log, r, start, pos, horizon) && r.phase == Draining
    ensures PagesOk(log, OnMessage(r, m), start, pos, horizon)
  {
  }

  lemma PageKeeps(s: State)
    requires Inv(s) && Enabled(s, ReadPage)
    ensures Inv(Apply(s, ReadPage))
  {
    PageKeepsPages(s);
    PageKeepsCover(s);
  }

  /** Steps of the writer that change no row and publish nothing. */
  lemma WriterStepKeeps(s: State, step: Step)
    requires Inv(s) && Enabled(s, step)
    requires step.Begin? || step.LoseWrite? || step.LosePublish? || step.MarkTerminal?
    ensures Inv(Apply(s, step))
  {
    var s' := Apply(s, step);
    assert WriterOk(s'.w) && LiveOk(s'.w, s'.r, s'.queue);
    forall i | 0 <= i < |s.w.log| && s.w.log[i].seqno > s.r.since
      ensures Accounted(s'.w, s'.r, s'.queue, s'.unheard, s.w.log[i])
    {
      assert Accounted(s.w, s.r, s.queue, s.unheard, s.w.log[i]);
    }
  }

  lemma RegisterKeeps(s: State)
    requires Inv(s) && Enabled(s, Register)
    ensures Inv(Apply(s, Register))
  {
    var s' := Apply(s, Register);
    forall i | 0 <= i < |s.w.log| && s.w.log[i].seqno > s.r.since
      ensures Accounted(s'.w, s'.r, s'.queue, s'.unheard, s.w.log[i])
    {
      assert Accounted(s.w, s.r, s.queue, s.unheard, s.w.log[i]);
    }
  }

  lemma StatusKeeps(s: State)
    requires Inv(s) && Enabled(s, CheckStatus)
    ensures Inv(Apply(s, CheckStatus))
  {
    var s' := Apply(s, CheckStatus);
    assert PagesOk(s'.w.log, s'.r, s'.start, s'.pos, s'.horizon);
    forall i | 0 <= i < |s.w.log| && s.w.log[i].seqno > s.r.since
      ensures Accounted(s'.w, s'.r, s'.queue, s'.unheard, s.w.log[i])
    {
      assert Accounted(s.w, s.r, s.queue, s.unheard, s.w.log[i]);
    }
  }

  lemma InvPreserved(s: State, step: Step)
    requires Inv(s) && Enabled(s, step)
    ensures Inv(Apply(s, step))
  {
    match step {
      case Store => StoreKeeps(s);
      case Publish => PublishKeeps(s);
      case Deliver => DeliverKeeps(s);
      case ReadPage => PageKeeps(s);
      case Register => RegisterKeeps(s);
      case CheckStatus => StatusKeeps(s);
      case _ => WriterStepKeeps(s, step);
    }
  }

  lemma {:induction false} RunKeepsInv(states: seq<State>, steps: seq<Step>, i: nat)
    requires IsRun(states, steps) && i < |states|
    ensures Inv(states[i])
  {
    if i == 0 {
      InitEstablishes(states[0]);
    } else {
      RunKeepsInv(states, steps, i - 1);
      InvPreserved(states[i - 1], steps[i - 1]);
    }
  }

  // ---- order

  function Upcoming(w: Writer): nat {
    if w.stage == Quiet then w.nextSeq else w.stage.e.seqno
  }

  /** `since` is not ahead of the next event to be published, or history has already been read. */
  predicate FairToRegister(s: State) {
    s.r.since < Upcoming(s.w) || s.r.phase != Paging
  }

  predicate After(events: seq<Event>, since: int) {
    forall i :: 0 <= i < |events| ==> events[i].seqno > since
  }

  predicate StrictlyAhead(s: State) {
    s.r.since < Upcoming(s.w) && After(Waiting(s.queue), s.r.since) && After(s.r.live, s.r.since)
  }

  predicate AheadOk(s: State) {
    s.queue == None || (s.r.phase != Paging && s.r.paged == []) || StrictlyAhead(s)
  }

  lemma TailAfter(q: seq<Event>, since: int)
    requires q != [] && After(q, since)
    ensures After(q[1..], since) && q[0].seqno > since
  {
    assert forall i :: 0 <= i < |q[1..]| ==> q[1..][i] == q[i + 1];
  }

  lemma RegisterIsAhead(s: State)
    requires Inv(s) && AheadOk(s) && Enabled(s, Register) && FairToRegister(s)
    ensures AheadOk(Apply(s, Register))
  {
    if s.r.paged != [] {
      assert s.r.paged[0] == s.w.log[s.start];
      assert s.w.log[s.start].seqno <= s.w.log[|s.w.log| - 1].seqno;
    }
  }

  lemma StaysStrictlyAhead(s: State, step: Step)
    requires Inv(s) && StrictlyAhead(s) && Enabled(s, step)
    ensures StrictlyAhead(Apply(s, step))
  {
    match step {
      case Publish => OfferStaysAhead(s);
      case Deliver => DeliverStaysAhead(s);
      case _ => NothingMoves(s, step);
    }
  }

  lemma DeliverStaysAhead(s: State)
    requires StrictlyAhead(s) && Enabled(s, Deliver)
    ensures StrictlyAhead(Apply(s, Deliver))
  {
    TailAfter(s.queue.value, s.r.since);
  }

  lemma NothingMoves(s: State, step: Step)
    requires WriterOk(s.w) && StrictlyAhead(s) && Enabled(s, step) && !step.Publish? && !step.Deliver?
    ensures StrictlyAhead(Apply(s, step))
  {
  }

  lemma OfferStaysAhead(s: State)
    requires Inv(s) && StrictlyAhead(s) && Enabled(s, Publish)
    ensures StrictlyAhead(Apply(s, Publish))
  {
    if s.queue.Some? && s.queue.value != [] {
      TailAfter(s.queue.value, s.r.since);
    }
  }

  lemma AheadPreserved(s: State, step: Step)
    requires Inv(s) && AheadOk(s) && Enabled(s, step)
    requires step.Register? ==> FairToRegister(s)
    ensures AheadOk(Apply(s, step))
  {
    if step.Register? {
      RegisterIsAhead(s);
    } else if StrictlyAhead(s) {
      StaysStrictlyAhead(s, step);
    }
  }

  lemma SeqnoOf(events: seq<Event>, k: nat)
    requires k < |events|
    ensures events[k].seqno in Seqnos(events)
  {
  }

  lemma SliceAt(log: seq<Event>, from: nat, to: nat, j: nat)
    requires from <= j < to <= |log|
    ensures log[from..to][j - from] == log[j] && log[j].seqno in Seqnos(log[from..to])
  {
    SeqnoOf(log[from..to], j - from);
  }

  lemma PagedIsSeen(s: State, j: nat)
    requires Inv(s) && s.start <= j < s.pos
    ensures s.w.log[j].seqno in s.r.seen
  {
    SliceAt(s.w.log, s.start, s.pos, j);
  }

  /** Anything emitted live comes after everything emitted from history. */
  lemma LiveFollowsHistory(s: State, i: nat, k: nat)
    requires Inv(s) && AheadOk(s) && i < |s.r.live| && k < |s.r.paged|
    ensures s.r.paged[k].seqno < s.r.live[i].seqno
  {
    var e := s.r.live[i];
    assert e.seqno > s.r.since;
    var j :| 0 <= j < |s.w.log| && s.w.log[j] == e;
    if j < s.pos { PagedIsSeen(s, j); }
    SliceAt(s.w.log, s.start, s.pos, s.start + k);
  }

  lemma SortedConcat(a: seq<Event>, b: seq<Event>)
    requires Sorted(a) && Sorted(b) && Before(a, b)
    ensures Sorted(a + b)
  {
    forall i, j | 0 <= i < j < |a + b| ensures (a + b)[i].seqno < (a + b)[j].seqno {
      if i < |a| <= j { assert a[i].seqno < b[j - |a|].seqno; }
    }
  }

  lemma PagedIsSorted(s: State)
    requires Inv(s)
    ensures Sorted(s.r.paged)
  {
    SortedSlice(s.w.log, s.start, s.pos);
  }

  lemma SortedSlice(log: seq<Event>, from: nat, to: nat)
    requires Sorted(log) && from <= to <= |log|
    ensures Sorted(log[from..to])
  {
    assert forall k :: 0 <= k < to - from ==> log[from..to][k] == log[from + k];
  }

  lemma EmittedIsSorted(s: State)
    requires Inv(s) && AheadOk(s)
    ensures Sorted(s.r.Emitted())
  {
    PagedIsSorted(s);
    assert Before(s.r.paged, s.r.live) by {
      forall k, i | 0 <= k < |s.r.paged| && 0 <= i < |s.r.live| ensures s.r.paged[k].seqno < s.r.live[i].seqno {
        LiveFollowsHistory(s, i, k);
      }
    }
    SortedConcat(s.r.paged, s.r.live);
  }

  lemma {:induction false} RunStaysAhead(states: seq<State>, steps: seq<Step>, i: nat)
    requires IsRun(states, steps) && i < |states|
    requires forall j :: 0 <= j < i && steps[j] == Register ==> FairToRegister(states[j])
    ensures AheadOk(states[i])
  {
    if i > 0 {
      RunStaysAhead(states, steps, i - 1);
      RunKeepsInv(states, steps, i - 1);
      AheadPreserved(states[i - 1], steps[i - 1]);
    }
  }

  /**
   * The stream is strictly increasing, hence free of duplicates, for any page
   * size, any drops and lost writes, and any fair registration point.
   */
  lemma StreamIsOrdered(states: seq<State>, steps: seq<Step>, i: nat)
    requires IsRun(states, steps) && i < |states|
    requires forall j :: 0 <= j < i && steps[j] == Register ==> FairToRegister(states[j])
    ensures Sorted(states[i].r.Emitted())
  {
    RunKeepsInv(states, steps, i);
    RunStaysAhead(states, steps, i);
    EmittedIsSorted(states[i]);
  }

  /** The code registers only when the drain starts. */
  predicate AsWritten(states: seq<State>, steps: seq<Step>) {
    |states| == |steps| + 1 && forall j :: 0 <= j < |steps| && steps[j] == Register ==> states[j].r.phase == Draining
  }

  /** As the code registers, the order needs no condition on `since`. */
  lemma StreamAsWrittenIsOrdered(states: seq<State>, steps: seq<Step>, i: nat)
    requires IsRun(states, steps) && AsWritten(states, steps) && i < |states|
    ensures Sorted(states[i].r.Emitted())
  {
    StreamIsOrdered(states, steps, i);
  }

  // ---- completeness, exit by exit

  /** All committed events after `since`, each once, in order. */
  predicate Complete(s: State)
    requires s.start <= |s.w.log|
  {
    s.r.Emitted() == s.w.log[s.start..]
  }

  /** `start` is the meaning of `since` on the final log. */
  lemma StartSplitsTheLog(states: seq<State>, steps: seq<Step>, i: nat)
    requires IsRun(states, steps) && i < |states|
    ensures SplitsAt(states[i].w.log, states[i].r.since, states[i].start)
  {
    RunKeepsInv(states, steps, i);
  }

  /** Ending inside the history, the stream is complete. */
  lemma HistoryExitIsComplete(states: seq<State>, steps: seq<Step>, i: nat)
    requires IsRun(states, steps) && i < |states| && states[i].r.phase == Closed(FinishInHistory)
    ensures states[i].start <= |states[i].w.log| && Complete(states[i])
  {
    RunKeepsInv(states, steps, i);
    var s := states[i];
    assert s.r.paged[|s.r.paged| - 1] == s.w.log[s.pos - 1];
  }

  /** No finish has been paged except on the exit it causes, and the status exit saw a terminal run. */
  predicate EndOk(s: State) {
    && (s.r.phase == Closed(RunAlreadyOver) ==> s.w.terminal)
    && (HasFinish(s.r.paged) ==> s.r.phase == Closed(FinishInHistory))
  }

  lemma FinishOfConcat(a: seq<Event>, b: seq<Event>)
    ensures HasFinish(a + b) <==> HasFinish(a) || HasFinish(b)
  {
    if HasFinish(a) {
      var i :| 0 <= i < |a| && IsFinish(a[i]);
      assert IsFinish((a + b)[i]);
    } else if HasFinish(b) {
      var i :| 0 <= i < |b| && IsFinish(b[i]);
      assert IsFinish((a + b)[|a| + i]);
    }
  }

  lemma EndPreserved(s: State, step: Step)
    requires EndOk(s) && Enabled(s, step)
    ensures EndOk(Apply(s, step))
  {
    if step.ReadPage? {
      FinishOfConcat(s.r.paged, Page(s.w.log, s.pos, s.r.limit));
    }
  }

  lemma {:induction false} RunKeepsEnd(states: seq<State>, steps: seq<Step>, i: nat)
    requires IsRun(states, steps) && i < |states|
    ensures EndOk(states[i])
  {
    if i > 0 {
      RunKeepsEnd(states, steps, i - 1);
      EndPreserved(states[i - 1], steps[i - 1]);
    }
  }

  /**
   * Ending on the status check, the log is finished but run.finished has not been
   * emitted: the stream is a prefix of what it should be, and complete exactly
   * when the reader's `since` was already at or past run.finished.
   */
  lemma StatusExitIsAPrefix(states: seq<State>, steps: seq<Step>, i: nat)
    requires IsRun(states, steps) && i < |states| && states[i].r.phase == Closed(RunAlreadyOver)
    ensures var s := states[i];
            && s.start <= s.pos <= |s.w.log| && s.r.Emitted() == s.w.log[s.start..s.pos]
            && LogFinished(s.w.log) && !HasFinish(s.r.Emitted())
            && (Complete(s) <==> s.w.log[|s.w.log| - 1].seqno <= s.r.since)
  {
    RunKeepsInv(states, steps, i);
    RunKeepsEnd(states, steps, i);
    var s := states[i];
    var last := |s.w.log| - 1;
    assert s.r.Emitted() == s.r.paged;
    if s.start <= last {
      TailHasFinish(s.w.log, s.start);
    }
  }

  /** The run is terminal exactly if that has been marked. */
  lemma {:induction false} TerminalIsMarked(states: seq<State>, steps: seq<Step>, i: nat)
    requires IsRun(states, steps) && i < |states|
    ensures states[i].w.terminal <==> exists j :: 0 <= j < i && steps[j] == MarkTerminal
  {
    if i > 0 {
      TerminalIsMarked(states, steps, i - 1);
      assert Enabled(states[i - 1], steps[i - 1]) && states[i] == Apply(states[i - 1], steps[i - 1]);
    }
  }

  /** The status check ends the stream exactly if the run was marked terminal before; else the drain starts. */
  lemma StatusDecides(states: seq<State>, steps: seq<Step>, i: nat)
    requires IsRun(states, steps) && i < |steps| && steps[i] == CheckStatus
    ensures states[i + 1].r.phase ==
              if exists j :: 0 <= j < i && steps[j] == MarkTerminal then Closed(RunAlreadyOver) else Draining
  {
    TerminalIsMarked(states, steps, i);
    assert Enabled(states[i], steps[i]) && states[i + 1] == Apply(states[i], steps[i]);
  }

  lemma TailHasFinish(log: seq<Event>, from: nat)
    requires LogFinished(log) && from < |log|
    ensures HasFinish(log[from..])
  {
    assert IsFinish(log[from..][|log| - 1 - from]);
  }

  /** Ending on a live run.finished, an event is missing exactly when it went unheard and was not paged. */
  lemma LiveExitMissesTheUnheard(states: seq<State>, steps: seq<Step>, i: nat, e: Event)
    requires IsRun(states, steps) && i < |states| && states[i].r.phase == Closed(FinishLive)
    requires e in states[i].w.log && e.seqno > states[i].r.since
    ensures e in states[i].r.Emitted() <==> e.seqno in states[i].r.seen || e.seqno !in states[i].unheard
  {
    RunKeepsInv(states, steps, i);
    MissesTheUnheard(states[i], e);
  }

  // ---- the same, read off the steps of the run

  /** The step at which a reader stops being able to hear `e`. */
  predicate LosesAt(s: State, step: Step, e: Event) {
    || (step == LosePublish && s.w.stage == Stored(e))
    || (step == Publish && s.w.stage == Stored(e) && s.queue == None)
    || (step == Publish && s.queue.Some? && Full(s.size, s.queue.value) && s.queue.value != [] && s.queue.value[0] == e)
  }

  ghost predicate LostBefore(states: seq<State>, steps: seq<Step>, i: nat, e: Event)
    requires |states| == |steps| + 1 && i < |states|
  {
    exists j :: 0 <= j < i && LosesAt(states[j], steps[j], e)
  }

  /** What a step adds to the unheard events is exactly what it loses. */
  lemma UnheardGrows(s: State, step: Step, e: Event)
    requires Inv(s) && Enabled(s, step) && e in Apply(s, step).w.log
    ensures e.seqno in Apply(s, step).unheard <==> e.seqno in s.unheard || LosesAt(s, step, e)
  {
    var log := s.w.log;
    if step == LosePublish || (step == Publish && s.queue == None) {
      assert s.w.stage.e == log[|log| - 1];
      if e.seqno == s.w.stage.e.seqno { SameSeqno(log, e, s.w.stage.e); }
    } else if step == Publish && Full(s.size, s.queue.value) {
      var first := s.queue.value[0];
      assert first in log;
      if e.seqno == first.seqno { SameSeqno(log, e, first); }
    }
  }

  lemma NewEventIsHeard(s: State, step: Step, e: Event)
    requires Inv(s) && Enabled(s, step) && e in Apply(s, step).w.log && e !in s.w.log
    ensures e.seqno !in Apply(s, step).unheard
  {
  }

  lemma NotLostBeforeStored(s: State, step: Step, e: Event)
    requires Inv(s) && Enabled(s, step) && LosesAt(s, step, e)
    ensures e in s.w.log
  {
    if s.w.stage.Stored? { assert s.w.log[|s.w.log| - 1] == s.w.stage.e; }
  }

  /** One step's effect on whether `e` is unheard. */
  predicate CountsLoss(s: State, step: Step, s': State, e: Event) {
    && (LosesAt(s, step, e) ==> e in s.w.log) && (e in s.w.log ==> e in s'.w.log)
    && (e in s.w.log ==> (e.seqno in s'.unheard <==> e.seqno in s.unheard || LosesAt(s, step, e)))
    && (e !in s.w.log && e in s'.w.log ==> e.seqno !in s'.unheard)
  }

  lemma StepCountsLoss(s: State, step: Step, e: Event)
    requires Inv(s) && Enabled(s, step)
    ensures CountsLoss(s, step, Apply(s, step), e)
  {
    var s' := Apply(s, step);
    assert s.w.log <= s'.w.log;
    if e in s.w.log {
      UnheardGrows(s, step, e);
    } else if e in s'.w.log {
      NewEventIsHeard(s, step, e);
    }
    if LosesAt(s, step, e) { NotLostBeforeStored(s, step, e); }
  }

  lemma {:induction false} LossesAddUp(states: seq<State>, steps: seq<Step>, i: nat, e: Event)
    requires |states| == |steps| + 1 && i < |states| && e !in states[0].w.log
    requires forall j :: 0 <= j < i ==> CountsLoss(states[j], steps[j], states[j + 1], e)
    ensures e in states[i].w.log ==> (e.seqno in states[i].unheard <==> LostBefore(states, steps, i, e))
    ensures e !in states[i].w.log ==> !LostBefore(states, steps, i, e)
  {
    if i > 0 {
      LossesAddUp(states, steps, i - 1, e);
      assert CountsLoss(states[i - 1], steps[i - 1], states[i - 1 + 1], e);
      LostSoFar(states, steps, i, e);
    }
  }

  lemma LostSoFar(states: seq<State>, steps: seq<Step>, i: nat, e: Event)
    requires |states| == |steps| + 1 && 0 < i < |states|
    ensures LostBefore(states, steps, i, e) <==>
              LostBefore(states, steps, i - 1, e) || LosesAt(states[i - 1], steps[i - 1], e)
  {
  }

  /** The unheard events are those that some earlier step lost. */
  lemma UnheardIsLost(states: seq<State>, steps: seq<Step>, i: nat, e: Event)
    requires IsRun(states, steps) && i < |states| && e in states[i].w.log
    ensures e.seqno in states[i].unheard <==> LostBefore(states, steps, i, e)
  {
    forall j | 0 <= j < i ensures CountsLoss(states[j], steps[j], states[j + 1], e) {
      RunKeepsInv(states, steps, j);
      StepCountsLoss(states[j], steps[j], e);
    }
    LossesAddUp(states, steps, i, e);
  }

  lemma {:induction false} LogGrows(states: seq<State>, steps: seq<Step>, j: nat, i: nat)
    requires IsRun(states, steps) && j <= i < |states|
    ensures states[j].w.log <= states[i].w.log && states[j].r.since == states[i].r.since
    decreases i
  {
    if j < i {
      LogGrows(states, steps, j, i - 1);
      assert Enabled(states[i - 1], steps[i - 1]) && states[i] == Apply(states[i - 1], steps[i - 1]);
    }
  }

  /** Nothing committed after the last page has been paged. */
  predicate PosOk(s: State) {
    s.r.paged != [] ==> s.pos <= s.horizon
  }

  lemma PosPreserved(s: State, step: Step)
    requires Inv(s) && PosOk(s) && Enabled(s, step)
    ensures PosOk(Apply(s, step))
  {
    if step.Store? && s.r.paged != [] {
      assert s.r.paged[|s.r.paged| - 1] == s.w.log[s.pos - 1];
    }
  }

  lemma {:induction false} RunKeepsPos(states: seq<State>, steps: seq<Step>, i: nat)
    requires IsRun(states, steps) && i < |states|
    ensures PosOk(states[i])
  {
    if i > 0 {
      RunKeepsPos(states, steps, i - 1);
      PosInRun(states, steps, i - 1);
    }
  }

  lemma PosInRun(states: seq<State>, steps: seq<Step>, i: nat)
    requires IsRun(states, steps) && i < |steps| && PosOk(states[i])
    ensures PosOk(states[i + 1])
  {
    RunKeepsInv(states, steps, i);
    PosPreserved(states[i], steps[i]);
  }

  /** Step `k` is the last page read before state `i`. */
  predicate LastPage(steps: seq<Step>, k: nat, i: nat) {
    k < i <= |steps| && steps[k] == ReadPage && forall j :: k < j < i ==> steps[j] != ReadPage
  }

  lemma {:induction false} HorizonIsLastPage(states: seq<State>, steps: seq<Step>, k: nat, i: nat)
    requires IsRun(states, steps) && i < |states| && LastPage(steps, k, i)
    ensures states[i].horizon == |states[k].w.log|
    decreases i
  {
    assert Enabled(states[i - 1], steps[i - 1]) && states[i] == Apply(states[i - 1], steps[i - 1]);
    if k + 1 < i {
      HorizonIsLastPage(states, steps, k, i - 1);
    }
  }

  /** Once paging is over, what was paged is what was committed at the last page. */
  lemma PagedIsBeforeHorizon(s: State, e: Event)
    requires Inv(s) && PosOk(s) && s.r.phase != Paging && e in s.w.log && e.seqno > s.r.since
    ensures e.seqno in s.r.seen <==> e in s.w.log[..s.horizon]
  {
    var i :| 0 <= i < |s.w.log| && s.w.log[i] == e;
    assert i >= s.start;
    if e.seqno in s.r.seen {
      SeenIsPaged(s, e);
      var k :| 0 <= k < |s.r.paged| && s.r.paged[k] == e;
      assert s.w.log[s.start + k] == e && s.w.log[..s.horizon][s.start + k] == e;
    }
    if e in s.w.log[..s.horizon] {
      var k :| 0 <= k < s.horizon && s.w.log[..s.horizon][k] == e;
      PagedIsSeen(s, k);
    }
  }

  /**
   * Over the steps of the run: an event after `since` is missing from a stream
   * that ends live exactly if it was committed after the last page was read, and
   * it was published before the registration, dropped, or never published.
   */
  lemma LiveExitMissesTheLost(states: seq<State>, steps: seq<Step>, k: nat, i: nat, e: Event)
    requires IsRun(states, steps) && i < |states| && states[i].r.phase == Closed(FinishLive) && LastPage(steps, k, i)
    requires e in states[i].w.log && e.seqno > states[i].r.since
    ensures e !in states[i].r.Emitted() <==> e !in states[k].w.log && LostBefore(states, steps, i, e)
  {
    var s := states[i];
    RunKeepsInv(states, steps, i);
    RunKeepsPos(states, steps, i);
    HorizonIsLastPage(states, steps, k, i);
    LogGrows(states, steps, k, i);
    assert s.w.log[..s.horizon] == states[k].w.log;
    PagedIsBeforeHorizon(s, e);
    UnheardIsLost(states, steps, i, e);
    LiveExitMissesTheUnheard(states, steps, i, e);
  }

  lemma SameSeqno(log: seq<Event>, a: Event, b: Event)
    requires Sorted(log) && a in log && b in log && a.seqno == b.seqno
    ensures a == b
  {
    var i :| 0 <= i < |log| && log[i] == a;
    var j :| 0 <= j < |log| && log[j] == b;
    assert i == j;
  }

  lemma NothingAfterTheFinish(s: State, e: Event)
    requires Inv(s) && s.r.phase == Closed(FinishLive) && e in s.w.log
    ensures e !in Waiting(s.queue) && s.w.stage != Stored(e)
  {
    var f := s.r.live[|s.r.live| - 1];
    assert f in s.w.log && IsFinish(f);
    var i :| 0 <= i < |s.w.log| && s.w.log[i] == f;
    var j :| 0 <= j < |s.w.log| && s.w.log[j] == e;
    assert e.seqno <= f.seqno;
  }

  lemma SeenIsPaged(s: State, e: Event)
    requires Inv(s) && e in s.w.log && e.seqno in s.r.seen
    ensures e in s.r.paged
  {
    SeqnoIsUnique(s.w.log, s.start, s.pos, e);
  }

  lemma SeqnoIsUnique(log: seq<Event>, from: nat, to: nat, e: Event)
    requires Sorted(log) && from <= to <= |log| && e in log && e.seqno in Seqnos(log[from..to])
    ensures e in log[from..to]
  {
    var part := log[from..to];
    var k :| 0 <= k < |part| && part[k].seqno == e.seqno;
    assert part[k] == log[from + k];
    SameSeqno(log, part[k], e);
  }

  lemma PagedSeqnosAreSeen(s: State, e: Event)
    requires Inv(s) && e in s.r.paged
    ensures e.seqno in s.r.seen
  {
    var k :| 0 <= k < |s.r.paged| && s.r.paged[k] == e;
    SeqnoOf(s.r.paged, k);
  }

  lemma MissesTheUnheard(s: State, e: Event)
    requires Inv(s) && s.r.phase == Closed(FinishLive) && e in s.w.log && e.seqno > s.r.since
    ensures e in s.r.Emitted() <==> e.seqno in s.r.seen || e.seqno !in s.unheard
  {
    NothingAfterTheFinish(s, e);
    if e.seqno in s.r.seen {
      SeenIsPaged(s, e);
    } else {
      var i :| 0 <= i < |s.w.log| && s.w.log[i] == e;
      assert Accounted(s.w, s.r, s.queue, s.unheard, s.w.log[i]);
      if e in s.r.paged { PagedSeqnosAreSeen(s, e); }
      assert e in s.r.Emitted() <==> e in s.r.live;
      LiveIsHeard(s, e);
    }
  }

  lemma LiveIsHeard(s: State, e: Event)
    requires Inv(s)
    ensures e in s.r.live ==> e.seqno !in s.unheard
  {
  }

  // ---- the promise: register first, lose nothing, and nothing is missing

  /** The stretch of a run from state `k` on loses no message of a registered reader. */
  ghost predicate NothingLostFrom(states: seq<State>, steps: seq<Step>, k: nat) {
    && IsRun(states, steps) && k < |states|
    && states[k].queue.Some? && states[k].r == NewReader(states[k].r.since, states[k].r.limit)
    && forall j :: k <= j < |steps| ==>
         && steps[j] != LosePublish
         && (steps[j] == Publish && states[j].queue.Some? ==> !Full(states[j].size, states[j].queue.value))
  }

  /** From then on nothing more goes unheard, and the first page reaches what was committed before. */
  ghost predicate Kept(s0: State, s: State) {
    && s.queue.Some? && s.unheard == s0.unheard
    && s0.w.log <= s.w.log
    && s.r.since == s0.r.since && StrictlyAhead(s)
    && (s.r.phase != Paging ==> |s0.w.log| <= s.horizon)
  }

  lemma KeptPreserved(s0: State, s: State, step: Step)
    requires Kept(s0, s) && Enabled(s, step) && Inv(s)
    requires step != LosePublish && (step == Publish ==> !Full(s.size, s.queue.value))
    ensures Kept(s0, Apply(s, step))
  {
    StaysStrictlyAhead(s, step);
  }

  lemma KeptStep(states: seq<State>, steps: seq<Step>, k: nat, j: nat)
    requires NothingLostFrom(states, steps, k) && k <= j < |steps| && Kept(states[k], states[j])
    ensures Kept(states[k], states[j + 1])
  {
    RunKeepsInv(states, steps, j);
    KeptPreserved(states[k], states[j], steps[j]);
  }

  lemma {:induction false} RunKeeps(states: seq<State>, steps: seq<Step>, k: nat, i: nat)
    requires NothingLostFrom(states, steps, k) && k <= i < |states| && StrictlyAhead(states[k])
    ensures Kept(states[k], states[i])
    decreases i
  {
    if k < i {
      RunKeeps(states, steps, k, i - 1);
      KeptStep(states, steps, k, i - 1);
    }
  }

  predicate SameElements(a: seq<Event>, b: seq<Event>) {
    && (forall i :: 0 <= i < |a| ==> a[i] in b)
    && (forall j :: 0 <= j < |b| ==> b[j] in a)
    && (a == [] <==> b == [])
  }

  lemma LastIsGreatest(a: seq<Event>, e: Event)
    requires Sorted(a) && e in a
    ensures e.seqno <= a[|a| - 1].seqno
    ensures e.seqno == a[|a| - 1].seqno ==> e == a[|a| - 1]
  {
  }

  lemma SameLast(a: seq<Event>, b: seq<Event>)
    requires Sorted(a) && Sorted(b) && SameElements(a, b) && a != []
    ensures a[|a| - 1] == b[|b| - 1]
    ensures SameElements(a[..|a| - 1], b[..|b| - 1])
  {
    LastIsGreatest(b, a[|a| - 1]);
    LastIsGreatest(a, b[|b| - 1]);
    DropLast(a, b);
    DropLast(b, a);
    assert |a| > 1 ==> a[0] in b[..|b| - 1];
    assert |b| > 1 ==> b[0] in a[..|a| - 1];
  }

  lemma DropLast(a: seq<Event>, b: seq<Event>)
    requires a != [] && b != [] && Sorted(a) && a[|a| - 1] == b[|b| - 1] && forall i :: 0 <= i < |a| ==> a[i] in b
    ensures forall i :: 0 <= i < |a| - 1 ==> a[i] in b[..|b| - 1]
  {
    forall i | 0 <= i < |a| - 1 ensures a[i] in b[..|b| - 1] {
      var j :| 0 <= j < |b| && b[j] == a[i];
      assert a[i].seqno < a[|a| - 1].seqno;
      assert b[..|b| - 1][j] == a[i];
    }
  }

  lemma {:induction false} SortedSameElements(a: seq<Event>, b: seq<Event>)
    requires Sorted(a) && Sorted(b) && SameElements(a, b)
    ensures a == b
  {
    if a != [] {
      var m, n := |a| - 1, |b| - 1;
      SameLast(a, b);
      SortedSameElements(a[..m], b[..n]);
      assert a == a[..m] + [a[m]] && b == b[..n] + [b[n]];
    }
  }

  lemma UnheardWasPaged(s0: State, s: State, e: Event)
    requires Inv(s0) && Inv(s) && Kept(s0, s) && s.r.phase != Paging
    requires e in s.w.log && e.seqno > s.r.since && e.seqno in s.unheard
    ensures e.seqno in s.r.seen
  {
    var i :| 0 <= i < |s0.w.log| && s0.w.log[i].seqno == e.seqno;
    assert s.w.log[i] == s0.w.log[i];
    SameSeqno(s.w.log, s.w.log[i], e);
    PagedIsSeen(s, i);
  }

  lemma InTail(log: seq<Event>, since: int, start: nat, e: Event)
    requires SplitsAt(log, since, start)
    ensures e in log[start..] <==> e in log && e.seqno > since
  {
    if e in log && e.seqno > since {
      var i :| 0 <= i < |log| && log[i] == e;
      assert log[start..][i - start] == e;
    }
  }

  lemma EmittedIsWanted(s: State, e: Event)
    requires Inv(s) && StrictlyAhead(s) && e in s.r.Emitted()
    ensures e in s.w.log && e.seqno > s.r.since
  {
    if e in s.r.paged {
      var k :| 0 <= k < |s.r.paged| && s.r.paged[k] == e;
      assert s.r.paged[k] == s.w.log[s.start + k];
    }
  }

  lemma WantedIsEmitted(s0: State, s: State, e: Event)
    requires Inv(s0) && Inv(s) && Kept(s0, s) && s.r.phase == Closed(FinishLive)
    ensures e in s.r.Emitted() <==> e in s.w.log[s.start..]
  {
    InTail(s.w.log, s.r.since, s.start, e);
    if e in s.r.Emitted() { EmittedIsWanted(s, e); }
    if e in s.w.log && e.seqno > s.r.since {
      MissesTheUnheard(s, e);
      if e.seqno in s.unheard { UnheardWasPaged(s0, s, e); }
    }
  }

  /**
   * With the queue registered before the first page, no overflow and no lost
   * publish, a stream that ends by emitting run.finished live has emitted exactly
   * the committed events after `since`, each once, in order.
   */
  lemma RegisteredFirstIsComplete(states: seq<State>, steps: seq<Step>, k: nat, i: nat)
    requires NothingLostFrom(states, steps, k) && k <= i < |states|
    requires forall j :: 0 <= j < i && steps[j] == Register ==> FairToRegister(states[j])
    requires states[i].r.phase == Closed(FinishLive)
    ensures states[i].start <= |states[i].w.log| && Complete(states[i])
  {
    RunStaysAhead(states, steps, k);
    RunKeeps(states, steps, k, i);
    RunKeepsInv(states, steps, k);
    RunKeepsInv(states, steps, i);
    StreamIsOrdered(states, steps, i);
    var s := states[i];
    var emitted, wanted := s.r.Emitted(), s.w.log[s.start..];
    forall e ensures e in emitted <==> e in wanted {
      WantedIsEmitted(states[k], s, e);
    }
    SortedSlice(s.w.log, s.start, |s.w.log|);
    assert SameElements(emitted, wanted) by {
      var f := s.r.live[|s.r.live| - 1];
      assert f in emitted && f in wanted;
    }
    SortedSameElements(emitted, wanted);
  }

  // ---- the order of the code can lose events

  function Start(since: int): State {
    State(Writer(0, Quiet, [], false, false), NewReader(since, 1000), 1024, None, 0, 0, 0, {})
  }

  function At(kind: string, n: nat): Event {
    Event(n, kind)
  }

  ghost predicate Witness(states: seq<State>, steps: seq<Step>, since: int, phase: Phase, log: seq<Event>,
                          emitted: seq<Event>) {
    && IsRun(states, steps)
    && var s := states[|steps|];
       s.r.since == since && s.r.phase == phase && s.w.log == log && s.r.Emitted() == emitted
  }

  const STARTED := At("run.started", 0)
  const FINISHED := At("run.finished", 1)

  function GapStep(i: nat): Step
    requires i < 10
  {
    [ReadPage, CheckStatus, Begin("run.started"), Store, Publish, Register, Begin("run.finished"), Store, Publish,
        Deliver][i]
  }

  function GapState(i: nat): State
    requires i <= 10
  {
    var r := NewReader(-1, 1000);
    var w := Writer(0, Quiet, [], false, false);
    var w1 := Writer(1, Quiet, [STARTED], false, false);
    var w2 := Writer(2, Quiet, [STARTED, FINISHED], true, false);
    var open := r.(phase := Draining);
    if i == 0 then Start(-1)
    else if i == 1 then State(w, r.(phase := Checking), 1024, None, 0, 0, 0, {})
    else if i == 2 then State(w, open, 1024, None, 0, 0, 0, {})
    else if i == 3 then State(w.(nextSeq := 1, stage := Assigned(STARTED)), open, 1024, None, 0, 0, 0, {})
    else if i == 4 then State(w1.(stage := Stored(STARTED)), open, 1024, None, 0, 0, 0, {})
    else if i == 5 then State(w1, open, 1024, None, 0, 0, 0, {0})
    else if i == 6 then State(w1, open, 1024, Some([]), 0, 0, 0, {0})
    else if i == 7 then State(w1.(nextSeq := 2, stage := Assigned(FINISHED), over := true), open, 1024, Some([]), 0,
        0, 0, {0})
    else if i == 8 then State(w2.(stage := Stored(FINISHED)), open, 1024, Some([]), 0, 0, 0, {0})
    else if i == 9 then State(w2, open, 1024, Some([FINISHED]), 0, 0, 0, {0})
    else State(w2, open.(live := [FINISHED], phase := Closed(FinishLive)), 1024, Some([]), 0, 0, 0, {0})
  }

  lemma GapSteps(i: nat)
    requires i < 10
    ensures Enabled(GapState(i), GapStep(i)) && Apply(GapState(i), GapStep(i)) == GapState(i + 1)
  {
    if i == 0 {
      GapPage();
    } else if i == 1 {
      GapCheck();
    } else if i == 2 {
      GapBegin();
    } else if i == 3 {
      GapStore();
    } else if i < 7 {
      GapStepsMiddle(i);
    } else {
      GapStepsEnd(i);
    }
  }

  lemma GapPage()
    ensures Enabled(GapState(0), GapStep(0)) && Apply(GapState(0), GapStep(0)) == GapState(1)
  {
    assert Page([], 0, 1000) == [];
  }

  lemma GapCheck()
    ensures Enabled(GapState(1), GapStep(1)) && Apply(GapState(1), GapStep(1)) == GapState(2)
  {
  }

  lemma GapBegin()
    ensures Enabled(GapState(2), GapStep(2)) && Apply(GapState(2), GapStep(2)) == GapState(3)
  {
  }

  lemma GapStore()
    ensures Enabled(GapState(3), GapStep(3)) && Apply(GapState(3), GapStep(3)) == GapState(4)
  {
    assert [] + [STARTED] == [STARTED];
  }

  lemma GapStepsMiddle(i: nat)
    requires 4 <= i < 7
    ensures Enabled(GapState(i), GapStep(i)) && Apply(GapState(i), GapStep(i)) == GapState(i + 1)
  {
  }

  lemma GapStepsEnd(i: nat)
    requires 7 <= i < 10
    ensures Enabled(GapState(i), GapStep(i)) && Apply(GapState(i), GapStep(i)) == GapState(i + 1)
  {
    assert [STARTED] + [FINISHED] == [STARTED, FINISHED];
    assert Offer(1024, [], FINISHED) == [FINISHED] == [] + [FINISHED];
    assert [FINISHED][1..] == [];
  }

  /** An event published between the last page and the registration is never emitted. */
  lemma LateRegistrationLosesAnEvent()
    ensures exists states: seq<State>, steps: seq<Step> ::
              && AsWritten(states, steps)
              && Witness(states, steps, -1, Closed(FinishLive), [STARTED, FINISHED], [FINISHED])
  {
    var states := seq(11, i requires 0 <= i < 11 => GapState(i));
    var steps := seq(10, i requires 0 <= i < 10 => GapStep(i));
    forall i | 0 <= i < 10 ensures Enabled(states[i], steps[i]) && states[i + 1] == Apply(states[i], steps[i]) {
      GapSteps(i);
    }
    assert AsWritten(states, steps);
    assert Witness(states, steps, -1, Closed(FinishLive), [STARTED, FINISHED], [FINISHED]);
  }

  /** A run that finishes between the last page and the status check ends the stream without run.finished. */
  lemma LateFinishIsNotEmitted()
    ensures exists states: seq<State>, steps: seq<Step> ::
              && AsWritten(states, steps)
              && Witness(states, steps, -1, Closed(RunAlreadyOver), [At("run.finished", 0)], [])
  {
    var s0 := Start(-1);
    var steps := [ReadPage, Begin("run.finished"), Store, Publish, MarkTerminal, CheckStatus];
    var s1 := Apply(s0, steps[0]);
    var s2 := Apply(s1, steps[1]);
    var s3 := Apply(s2, steps[2]);
    var s4 := Apply(s3, steps[3]);
    var s5 := Apply(s4, steps[4]);
    var s6 := Apply(s5, steps[5]);
    var states := [s0, s1, s2, s3, s4, s5, s6];
    assert IsRun(states, steps);
    assert Witness(states, steps, -1, Closed(RunAlreadyOver), [At("run.finished", 0)], []);
  }

  /** Registered early with `since` ahead of the writer, the stream can go backwards. */
  lemma UnfairRegistrationBreaksOrder()
    ensures exists states: seq<State>, steps: seq<Step> ::
              Witness(states, steps, 0, Draining, [STARTED, DELAYED], [DELAYED, STARTED])
  {
    var states := seq(10, i requires 0 <= i < 10 => BackState(i));
    var steps := seq(9, i requires 0 <= i < 9 => BackStep(i));
    forall i | 0 <= i < 9 ensures Enabled(states[i], steps[i]) && states[i + 1] == Apply(states[i], steps[i]) {
      BackSteps(i);
    }
    assert Witness(states, steps, 0, Draining, [STARTED, DELAYED], [DELAYED, STARTED]);
  }

  const DELAYED := At("action.delay", 1)

  function BackStep(i: nat): Step
    requires i < 9
  {
    [Begin("run.started"), Store, Register, Publish, Begin("action.delay"), Store, ReadPage, CheckStatus, Deliver][i]
  }

  function BackState(i: nat): State
    requires i <= 9
  {
    var r := NewReader(0, 1000);
    var turned := Reader(0, 1000, Checking, 1, {1}, [DELAYED], []);
    var w1 := Writer(1, Quiet, [STARTED], false, false);
    var w2 := Writer(2, Stored(DELAYED), [STARTED, DELAYED], false, false);
    if i == 0 then Start(0)
    else if i == 1 then State(Writer(1, Assigned(STARTED), [], false, false), r, 1024, None, 0, 0, 0, {})
    else if i == 2 then State(w1.(stage := Stored(STARTED)), r, 1024, None, 1, 1, 0, {})
    else if i == 3 then State(w1.(stage := Stored(STARTED)), r, 1024, Some([]), 1, 1, 0, {})
    else if i == 4 then State(w1, r, 1024, Some([STARTED]), 1, 1, 0, {})
    else if i == 5 then State(w1.(nextSeq := 2, stage := Assigned(DELAYED)), r, 1024, Some([STARTED]), 1, 1, 0, {})
    else if i == 6 then State(w2, r, 1024, Some([STARTED]), 1, 1, 0, {})
    else if i == 7 then State(w2, turned, 1024, Some([STARTED]), 1, 2, 2, {})
    else if i == 8 then State(w2, turned.(phase := Draining), 1024, Some([STARTED]), 1, 2, 2, {})
    else State(w2, turned.(phase := Draining, live := [STARTED]), 1024, Some([]), 1, 2, 2, {})
  }

  lemma BackSteps(i: nat)
    requires i < 9
    ensures Enabled(BackState(i), BackStep(i)) && Apply(BackState(i), BackStep(i)) == BackState(i + 1)
  {
    if i < 3 {
      BackStepsStart(i);
    } else if i < 6 {
      BackStepsMiddle(i);
    } else if i == 6 {
      BackPage();
    } else {
      BackStepsEnd(i);
    }
  }

  lemma BackStepsStart(i: nat)
    requires i < 3
    ensures Enabled(BackState(i), BackStep(i)) && Apply(BackState(i), BackStep(i)) == BackState(i + 1)
  {
    assert [] + [STARTED] == [STARTED];
  }

  lemma BackStepsMiddle(i: nat)
    requires 3 <= i < 6
    ensures Enabled(BackState(i), BackStep(i)) && Apply(BackState(i), BackStep(i)) == BackState(i + 1)
  {
    assert Offer(1024, [], STARTED) == [STARTED];
    assert [STARTED] + [DELAYED] == [STARTED, DELAYED];
  }

  lemma BackPage()
    ensures Enabled(BackState(6), BackStep(6)) && Apply(BackState(6), BackStep(6)) == BackState(7)
  {
    assert Page([STARTED, DELAYED], 1, 1000) == [DELAYED];
    assert [DELAYED][0].seqno == 1 && Seqnos([DELAYED]) == {1};
    assert !HasFinish([DELAYED]);
  }

  lemma BackStepsEnd(i: nat)
    requires 7 <= i < 9
    ensures Enabled(BackState(i), BackStep(i)) && Apply(BackState(i), BackStep(i)) == BackState(i + 1)
  {
    assert [STARTED][1..] == [];
  }

  // ---- the generator object: what runs between two suspensions

  class EventStream {
    const since: int
    const limit: nat
    var phase: Phase
    var cursor: int
    var seen: set<nat>
    var paged: seq<Event>
    var live: seq<Event>

    ghost function View(): Reader reads this {
      Reader(since, limit, phase, cursor, seen, paged, live)
    }

    constructor (since: int, limit: nat)
      ensures View() == NewReader(since, limit)
    {
      this.since := since;
      this.limit := limit;
      phase := Paging;
      cursor := since;
      seen := {};
      paged := [];
      live := [];
    }

    /** One turn of the catch-up loop, given the page it fetched. */
    method CatchUp(batch: seq<Event>)
      requires phase == Paging
      modifies this
      ensures View() == OnBatch(old(View()), batch)
      ensures paged == old(paged) + batch && live == old(live) && cursor == if batch == [] then old(cursor)
                                                                             else batch[|batch| - 1].seqno
      ensures forall n :: n in seen <==> n in old(seen) || exists i :: 0 <= i < |batch| && batch[i].seqno == n
      ensures phase == if exists i :: 0 <= i < |batch| && batch[i].kind == "run.finished" then Closed(FinishInHistory)
                       else if batch == [] || |batch| < limit then Checking else Paging
    {
      if batch == [] {
        phase := Checking;
        return;
      }
      var sawFinished := false;
      for n := 0 to |batch|
        invariant View() == old(View()).(paged := old(paged) + batch[..n], seen := old(seen) + Seqnos(batch[..n]))
        invariant sawFinished <==> HasFinish(batch[..n])
      {
        var row := batch[n];
        seen := seen + {row.seqno};
        paged := paged + [row];
        if IsFinish(row) {
          sawFinished := true;
        }
        assert batch[..n + 1] == batch[..n] + [row];
        SeqnosOfConcat(batch[..n], [row]);
      }
      assert batch[..|batch|] == batch;
      cursor := batch[|batch| - 1].seqno;
      if sawFinished {
        phase := Closed(FinishInHistory);
      } else if |batch| < limit {
        phase := Checking;
      }
    }

    method CheckStatus(terminal: bool)
      requires phase == Checking
      modifies this
      ensures View() == OnStatus(old(View()), terminal)
      ensures phase == if terminal then Closed(RunAlreadyOver) else Draining
    {
      phase := if terminal then Closed(RunAlreadyOver) else Draining;
    }

    /** One message of the live drain. */
    method Receive(m: Event)
      requires phase == Draining
      modifies this
      ensures View() == OnMessage(old(View()), m)
      ensures live == if m.seqno in old(seen) then old(live) else old(live) + [m]
      ensures phase == if m.seqno !in old(seen) && m.kind == "run.finished" then Closed(FinishLive) else Draining
    {
      if m.seqno in seen {
        return;
      }
      live := live + [m];
      if IsFinish(m) {
        phase := Closed(FinishLive);
      }
    }
  }
}
