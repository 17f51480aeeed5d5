// Paging through forum topics from a server that may answer anything: repeated
// topics, unparsable ones, pages of any length. Only that it knows finitely many
// topic ids is used, and only for termination.
module Forum {
  import opened Base

  const MAX_PAGE: nat := 100
  const NO_LIMIT: nat := 0x7fff_ffff

  /** The trailing topic's last message, if it has one, and that message's date, if it has one. */
  datatype Top = Top(id: int, date: Option<int>)

  datatype Topic = Topic(id: int, top: Option<Top>)

  datatype Cursor = Cursor(date: int, message: int, topic: int)

  /** The n-th response: the raw topics, None where parsing gives nothing. */
  type Server = (nat, Cursor, nat) -> seq<Option<Topic>>

  function Wanted(limit: int): nat {
    if limit > 0 then limit else NO_LIMIT
  }

  function Ids(topics: seq<Topic>): set<int> {
    set i | 0 <= i < |topics| :: topics[i].id
  }

  predicate DistinctIds(topics: seq<Topic>) {
    forall i, j :: 0 <= i < j < |topics| ==> topics[i].id != topics[j].id
  }

  /** The parsed topics of a page whose ids are new, each id once. */
  function NewTopics(page: seq<Option<Topic>>, seen: set<int>): seq<Topic> {
    if page == [] then []
    else
      var n := |page| - 1;
      var earlier := NewTopics(page[..n], seen);
      if page[n].Some? && page[n].value.id !in seen && page[n].value.id !in Ids(earlier)
      then earlier + [page[n].value] else earlier
  }

  /** The topics of all responses so far: first occurrences, in order. */
  function AllNew(responses: seq<seq<Option<Topic>>>): seq<Topic> {
    if responses == [] then []
    else
      var n := |responses| - 1;
      var earlier := AllNew(responses[..n]);
      earlier + NewTopics(responses[n], Ids(earlier))
  }

  lemma IdsAppend(a: seq<Topic>, b: seq<Topic>)
    ensures Ids(a + b) == Ids(a) + Ids(b)
  {
    forall x | x in Ids(a) + Ids(b) ensures x in Ids(a + b) {
      if x in Ids(a) {
        var i :| 0 <= i < |a| && a[i].id == x;
        assert (a + b)[i].id == x;
      } else {
        var i :| 0 <= i < |b| && b[i].id == x;
        assert (a + b)[|a| + i].id == x;
      }
    }
  }

  ghost predicate Carries(page: seq<Option<Topic>>, id: int) {
    exists i :: 0 <= i < |page| && page[i].Some? && page[i].value.id == id
  }

  lemma {:induction false} NewTopicsAreNew(page: seq<Option<Topic>>, seen: set<int>)
    ensures var added := NewTopics(page, seen);
            && DistinctIds(added) && Ids(added) !! seen
            && (forall t :: t in added ==> Some(t) in page)
            && (forall id :: Carries(page, id) ==> id in seen || id in Ids(added))
  {
    if page != [] {
      var n := |page| - 1;
      var earlier := NewTopics(page[..n], seen);
      NewTopicsAreNew(page[..n], seen);
      if page[n].Some? { IdsAppend(earlier, [page[n].value]); }
      assert forall i :: 0 <= i < |earlier| ==> earlier[i].id in Ids(earlier);
      forall id | Carries(page, id) ensures id in seen || id in Ids(NewTopics(page, seen)) {
        var i :| 0 <= i < |page| && page[i].Some? && page[i].value.id == id;
        if i < n {
          assert page[..n][i] == page[i] && Carries(page[..n], id);
        } else if id !in seen && id !in Ids(earlier) {
          assert (earlier + [page[n].value])[|earlier|].id == id;
        }
      }
    }
  }

  /** However often the server repeats itself, every topic id it sends is kept once, and nothing else is. */
  lemma {:induction false} AllNewKeepsEachIdOnce(responses: seq<seq<Option<Topic>>>)
    ensures var all := AllNew(responses);
            && DistinctIds(all)
            && (forall t :: t in all ==> exists r :: 0 <= r < |responses| && Some(t) in responses[r])
            && (forall r, id :: 0 <= r < |responses| && Carries(responses[r], id) ==> id in Ids(all))
  {
    if responses != [] {
      var n := |responses| - 1;
      var earlier := AllNew(responses[..n]);
      AllNewKeepsEachIdOnce(responses[..n]);
      var added := NewTopics(responses[n], Ids(earlier));
      NewTopicsAreNew(responses[n], Ids(earlier));
      IdsAppend(earlier, added);
      assert forall i :: 0 <= i < |earlier| ==> earlier[i].id in Ids(earlier);
      assert forall i :: 0 <= i < |added| ==> added[i].id in Ids(added);
      forall t | t in earlier + added ensures exists r :: 0 <= r < |responses| && Some(t) in responses[r] {
        if t in earlier {
          var r :| 0 <= r < n && Some(t) in responses[..n][r];
          assert Some(t) in responses[r];
        } else {
          assert Some(t) in responses[n];
        }
      }
      forall r, id | 0 <= r < |responses| && Carries(responses[r], id) ensures id in Ids(earlier + added) {
        if r < n { assert responses[..n][r] == responses[r]; }
      }
    }
  }

  /** Entry `n` of response `r` is the first of its id to be sent. */
  predicate FirstSent(responses: seq<seq<Option<Topic>>>, r: nat, n: nat)
    requires r < |responses| && n < |responses[r]|
  {
    && responses[r][n].Some?
    && (forall q, m :: 0 <= q < r && 0 <= m < |responses[q]| && responses[q][m].Some? ==>
          responses[q][m].value.id != responses[r][n].value.id)
    && (forall m :: 0 <= m < n && responses[r][m].Some? ==> responses[r][m].value.id != responses[r][n].value.id)
  }

  ghost predicate Fresh(page: seq<Option<Topic>>, seen: set<int>, m: nat)
    requires m < |page|
  {
    page[m].Some? && page[m].value.id !in seen && !Carries(page[..m], page[m].value.id)
  }

  lemma FreshIsAdded(page: seq<Option<Topic>>, seen: set<int>)
    requires page != []
    ensures var n := |page| - 1;
            NewTopics(page, seen) == NewTopics(page[..n], seen) + (if Fresh(page, seen, n) then [page[n].value] else [])
  {
    var n := |page| - 1;
    var earlier := NewTopics(page[..n], seen);
    NewTopicsAreNew(page[..n], seen);
    if page[n].Some? && page[n].value.id in Ids(earlier) {
      var i :| 0 <= i < |earlier| && earlier[i].id == page[n].value.id;
      assert Some(earlier[i]) in page[..n];
      assert Carries(page[..n], page[n].value.id);
    }
  }

  lemma FreshInPrefix(page: seq<Option<Topic>>, seen: set<int>, n: nat)
    requires n <= |page|
    ensures forall m: nat :: m < n ==> (Fresh(page[..n], seen, m) <==> Fresh(page, seen, m))
  {
    forall m: nat | m < n ensures Fresh(page[..n], seen, m) <==> Fresh(page, seen, m) {
      assert page[..n][..m] == page[..m];
    }
  }

  /** The last of a page's new topics is the last entry whose id is new. */
  lemma {:induction false} LastNewTopic(page: seq<Option<Topic>>, seen: set<int>) returns (n: nat)
    ensures var added := NewTopics(page, seen);
            added != [] ==> n < |page| && Fresh(page, seen, n) && page[n] == Some(added[|added| - 1])
    ensures forall m: nat :: m < |page| && Fresh(page, seen, m) ==> NewTopics(page, seen) != [] && m <= n
  {
    n := 0;
    if page != [] {
      var last := |page| - 1;
      n := LastNewTopic(page[..last], seen);
      FreshIsAdded(page, seen);
      FreshInPrefix(page, seen, last);
      if Fresh(page, seen, last) {
        n := last;
      }
    }
  }

  /** Why paging stopped: nothing new, or nothing to page on from. */
  predicate DeadEnd(added: seq<Topic>) {
    added == [] || added[|added| - 1].top == None || added[|added| - 1].top.value.date == None
  }

  function AddedBy(responses: seq<seq<Option<Topic>>>, r: nat): seq<Topic>
    requires r < |responses|
  {
    NewTopics(responses[r], Ids(AllNew(responses[..r])))
  }

  /** Where request `r` pages on from: the trailing new topic of the response before it. */
  function CursorAt(responses: seq<seq<Option<Topic>>>, r: nat): Cursor
    requires r <= |responses|
  {
    if r == 0 || DeadEnd(AddedBy(responses, r - 1)) then Cursor(0, 0, 0)
    else
      var added := AddedBy(responses, r - 1);
      var tail := added[|added| - 1];
      Cursor(tail.top.value.date.value, tail.top.value.id, tail.id)
  }

  lemma SentBefore(responses: seq<seq<Option<Topic>>>, r: nat, id: int)
    requires r <= |responses|
    ensures id in Ids(AllNew(responses[..r])) <==>
              exists q, m :: 0 <= q < r && 0 <= m < |responses[q]| && responses[q][m].Some? &&
                               responses[q][m].value.id == id
  {
    var before := responses[..r];
    AllNewKeepsEachIdOnce(before);
    var all := AllNew(before);
    if id in Ids(all) {
      var i :| 0 <= i < |all| && all[i].id == id;
      var q :| 0 <= q < |before| && Some(all[i]) in before[q];
      var m :| 0 <= m < |before[q]| && before[q][m] == Some(all[i]);
      assert responses[q][m].value.id == id;
    }
    if q, m :| 0 <= q < r && 0 <= m < |responses[q]| && responses[q][m].Some? && responses[q][m].value.id == id {
      assert before[q] == responses[q] && Carries(before[q], id);
    }
  }

  lemma FreshIsFirstSent(responses: seq<seq<Option<Topic>>>, r: nat, n: nat)
    requires r < |responses| && n < |responses[r]|
    ensures Fresh(responses[r], Ids(AllNew(responses[..r])), n) <==> FirstSent(responses, r, n)
  {
    var page := responses[r];
    if page[n].Some? {
      var id := page[n].value.id;
      SentBefore(responses, r, id);
      assert Carries(page[..n], id) <==> exists m :: 0 <= m < n && page[m].Some? && page[m].value.id == id by {
        assert forall m :: 0 <= m < n ==> page[..n][m] == page[m];
      }
    }
  }

  /** Entry `n` is the last of its response whose id was new. */
  predicate LastFirstSent(responses: seq<seq<Option<Topic>>>, r: nat, n: nat)
    requires r < |responses|
  {
    && n < |responses[r]| && FirstSent(responses, r, n)
    && forall m: nat :: n < m < |responses[r]| ==> !FirstSent(responses, r, m)
  }

  /**
   * Where paging goes on from, in terms of the entries sent: at the last entry whose
   * id was new, if it has a dated top message; otherwise paging has come to an end.
   */
  lemma CursorExactly(responses: seq<seq<Option<Topic>>>, r: nat)
    requires r < |responses|
    ensures DeadEnd(AddedBy(responses, r)) <==>
              !exists n: nat :: LastFirstSent(responses, r, n) && responses[r][n].value.top.Some?
                                && responses[r][n].value.top.value.date.Some?
    ensures forall n: nat :: LastFirstSent(responses, r, n) && !DeadEnd(AddedBy(responses, r)) ==>
              var tail := responses[r][n].value;
              && tail.top.Some? && tail.top.value.date.Some?
              && CursorAt(responses, r + 1) == Cursor(tail.top.value.date.value, tail.top.value.id, tail.id)
  {
    var page, seen := responses[r], Ids(AllNew(responses[..r]));
    var last := LastNewTopic(page, seen);
    forall n: nat | n < |page| ensures Fresh(page, seen, n) <==> FirstSent(responses, r, n) {
      FreshIsFirstSent(responses, r, n);
    }
    assert AddedBy(responses, r) != [] ==> LastFirstSent(responses, r, last);
    assert forall n: nat :: LastFirstSent(responses, r, n) ==> n == last;
  }

  /** Each request asks for what is still wanted, at most a page, from the right cursor. */
  predicate Asked(server: Server, limit: int, responses: seq<seq<Option<Topic>>>, r: nat)
    requires r < |responses|
  {
    var left := Wanted(limit) - |AllNew(responses[..r])|;
    left > 0 && responses[r] == server(r, CursorAt(responses, r), Min(MAX_PAGE, left))
  }

  predicate AllAsked(server: Server, limit: int, responses: seq<seq<Option<Topic>>>) {
    forall r: nat :: r < |responses| ==> Asked(server, limit, responses, r)
  }

  lemma AskedGrows(server: Server, limit: int, responses: seq<seq<Option<Topic>>>, page: seq<Option<Topic>>)
    requires AllAsked(server, limit, responses) && |AllNew(responses)| < Wanted(limit)
    requires page == server(|responses|, CursorAt(responses, |responses|),
              Min(MAX_PAGE, Wanted(limit) - |AllNew(responses)|))
    ensures AllAsked(server, limit, responses + [page])
  {
    var more, k := responses + [page], |responses|;
    assert more[..k] == responses;
    CursorStays(responses, more, k);
    forall r: nat | r < k ensures Asked(server, limit, more, r) {
      assert Asked(server, limit, responses, r);
      assert more[..r] == responses[..r];
      CursorStays(responses, more, r);
    }
  }

  /** Where a request starts depends only on the responses before it. */
  lemma CursorStays(responses: seq<seq<Option<Topic>>>, more: seq<seq<Option<Topic>>>, r: nat)
    requires r <= |responses| <= |more| && more[..r] == responses[..r]
    ensures CursorAt(more, r) == CursorAt(responses, r)
  {
    if r > 0 {
      assert more[..r - 1] == more[..r][..r - 1] == responses[..r - 1];
      assert more[r - 1] == more[..r][r - 1] == responses[r - 1];
    }
  }

  lemma NotDeadYet(responses: seq<seq<Option<Topic>>>, page: seq<Option<Topic>>)
    requires forall r: nat :: r < |responses| ==> !DeadEnd(AddedBy(responses, r))
    ensures forall r: nat :: r < |responses| ==> !DeadEnd(AddedBy(responses + [page], r))
    ensures AddedBy(responses + [page], |responses|) == NewTopics(page, Ids(AllNew(responses)))
  {
    assert (responses + [page])[..|responses|] == responses;
    forall r: nat | r < |responses| ensures AddedBy(responses + [page], r) == AddedBy(responses, r) {
      assert (responses + [page])[..r] == responses[..r];
    }
  }

  /** A request is for what is still wanted, but a hundred at most. */
  lemma AskedExactly(server: Server, limit: int, responses: seq<seq<Option<Topic>>>, r: nat)
    requires AllAsked(server, limit, responses) && r < |responses|
    ensures var left := (if limit > 0 then limit else 0x7fff_ffff) - |AllNew(responses[..r])|;
            && left > 0
            && responses[r] == server(r, CursorAt(responses, r), if left < 100 then left else 100)
  {
    assert Asked(server, limit, responses, r);
  }

  method ReadPage(page: seq<Option<Topic>>, seen: set<int>) returns (added: seq<Topic>, seen': set<int>)
    ensures added == NewTopics(page, seen) && seen' == seen + Ids(added)
  {
    added, seen' := [], seen;
    for n := 0 to |page|
      invariant added == NewTopics(page[..n], seen) && seen' == seen + Ids(added)
    {
      assert page[..n + 1][..n] == page[..n];
      if page[n] == None || page[n].value.id in seen' {
        continue;
      }
      IdsAppend(added, [page[n].value]);
      assert Ids([page[n].value]) == {page[n].value.id} by { assert [page[n].value][0].id == page[n].value.id; }
      seen' := seen' + {page[n].value.id};
      added := added + [page[n].value];
    }
    assert page[..|page|] == page;
  }

  /** Yield the page until enough topics are out. */
  method YieldPage(added: seq<Topic>, already: seq<Topic>, wanted: nat) returns (out: seq<Topic>)
    requires |already| < wanted
    ensures out == already + added[..Min(|added|, wanted - |already|)]
  {
    out := already;
    for n := 0 to |added|
      invariant |out| == |already| + n < wanted
      invariant out == already + added[..n]
    {
      out := out + [added[n]];
      assert added[..n + 1] == added[..n] + [added[n]];
      if |out| >= wanted {
        return;
      }
    }
  }

  /**
   * `get_forum_topics`. It yields the distinct topics of the responses in order,
   * up to the limit, and stops early only at a dead end.
   */
  method GetForumTopics(server: Server, limit: int, ghost known: set<int>)
    returns (out: seq<Topic>, ghost responses: seq<seq<Option<Topic>>>)
    requires forall k, c, n, i :: 0 <= i < |server(k, c, n)| && server(k, c, n)[i].Some? ==>
              server(k, c, n)[i].value.id in known
    ensures out == AllNew(responses)[..Min(|AllNew(responses)|, if limit > 0 then limit else 0x7fff_ffff)]
    ensures |out| < (if limit > 0 then limit else 0x7fff_ffff) ==>
              responses != [] && DeadEnd(AddedBy(responses, |responses| - 1))
    ensures AllAsked(server, limit, responses)
    ensures forall r: nat :: r + 1 < |responses| ==> !DeadEnd(AddedBy(responses, r))
  {
    var wanted := Wanted(limit);
    var cursor, seen, k := Cursor(0, 0, 0), {}, 0;
    out, responses := [], [];
    while |out| < wanted
      invariant k == |responses| && out == AllNew(responses) && |out| <= wanted
      invariant seen == Ids(out) && seen <= known
      invariant AllAsked(server, limit, responses) && cursor == CursorAt(responses, k)
      invariant forall r: nat :: r < k ==> !DeadEnd(AddedBy(responses, r))
      decreases known - seen
    {
      var ask := Min(MAX_PAGE, wanted - |out|);
      var page := server(k, cursor, ask);
      AskedGrows(server, limit, responses, page);
      NotDeadYet(responses, page);
      ghost var before := responses;
      responses := responses + [page];
      assert responses[..k] == before;
      k := k + 1;
      var added, seen' := ReadPage(page, seen);
      FreshIsKnown(page, seen, known);
      if added == [] {
        return;
      }
      var already := out;
      out := YieldPage(added, out, wanted);
      if |out| >= wanted {
        assert out == AllNew(responses)[..wanted];
        return;
      }
      assert added[..|added|] == added;
      IdsAppend(already, added);
      var tail := added[|added| - 1];
      assert tail.id in Ids(added);
      seen := seen';
      if tail.top == None || tail.top.value.date == None {
        return;
      }
      cursor := Cursor(tail.top.value.date.value, tail.top.value.id, tail.id);
    }
  }

  lemma FreshIsKnown(page: seq<Option<Topic>>, seen: set<int>, known: set<int>)
    requires forall i :: 0 <= i < |page| && page[i].Some? ==> page[i].value.id in known
    ensures Ids(NewTopics(page, seen)) <= known && Ids(NewTopics(page, seen)) !! seen
  {
    NewTopicsAreNew(page, seen);
    forall id | id in Ids(NewTopics(page, seen)) ensures id in known {
      var added := NewTopics(page, seen);
      var i :| 0 <= i < |added| && added[i].id == id;
      assert Some(added[i]) in page;
    }
  }
}
