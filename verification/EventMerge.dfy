/**
  Merging the responses of parallel searches.  A response is what its future handed to the merge loop:
  the index of its query and the events it contributed, in order (all of them, or those before an
  exception).  The completion order is arbitrary.
 */
module EventMerge {
  import opened Options

  datatype Event = Event(id: string, body: string)

  datatype Response = Response(query: nat, events: seq<Event>)

  datatype Entry = Entry(event: Event, query: nat)

  type Pool = map<string, Entry>

  function MergeEvent(pool: Pool, e: Event, query: nat): Pool {
    if e.id == "" then pool
    else if e.id !in pool || query < pool[e.id].query then pool[e.id := Entry(e, query)]
    else pool
  }

  function MergeEvents(pool: Pool, events: seq<Event>, query: nat): Pool {
    if events == [] then pool
    else MergeEvent(MergeEvents(pool, events[..|events| - 1], query), events[|events| - 1], query)
  }

  function MergeAll(pool: Pool, responses: seq<Response>): Pool {
    if responses == [] then pool
    else
      var last := responses[|responses| - 1];
      MergeEvents(MergeAll(pool, responses[..|responses| - 1]), last.events, last.query)
  }

  /** The pool of one search: the dictionary `_run_queries_parallel` updates in place. */
  class EventPool {
    var events: Pool

    constructor ()
      ensures events == map[]
    {
      events := map[];
    }

    method RunQueriesParallel(completed: seq<Response>)
      modifies this
      ensures events == MergeAll(old(events), completed)
    {
      var k := 0;
      while k < |completed|
        invariant 0 <= k <= |completed|
        invariant events == MergeAll(old(events), completed[..k])
      {
        assert completed[..k + 1][..k] == completed[..k];
        MergeOne(completed[k]);
        k := k + 1;
      }
      assert completed[..k] == completed;
    }

    method MergeOne(response: Response)
      modifies this
      ensures events == MergeEvents(old(events), response.events, response.query)
    {
      var i := 0;
      while i < |response.events|
        invariant 0 <= i <= |response.events|
        invariant events == MergeEvents(old(events), response.events[..i], response.query)
      {
        assert response.events[..i + 1][..i] == response.events[..i];
        var e := response.events[i];
        if e.id != "" {
          if e.id !in events {
            events := events[e.id := Entry(e, response.query)];
          } else if response.query < events[e.id].query {
            events := events[e.id := Entry(e, response.query)];
          }
        }
        i := i + 1;
      }
      assert response.events[..i] == response.events;
    }
  }

  // ---------------------------------------------------------------- what the merge keeps

  /** The response contributes the event. */
  predicate Has(r: Response, id: string, entry: Entry) {
    id != "" && entry.event.id == id && entry.event in r.events && entry.query == r.query
  }

  /** Everything known about `id`: the entry the pool held before, or one contributed by a response. */
  ghost predicate Candidate(pool: Pool, responses: seq<Response>, id: string, entry: Entry) {
    (id in pool && pool[id] == entry) || exists r <- responses :: Has(r, id, entry)
  }

  /** `result` holds for every id a candidate with the least query index, and nothing else. */
  ghost predicate IsMerge(result: Pool, pool: Pool, responses: seq<Response>) {
    && (forall id <- result :: Candidate(pool, responses, id, result[id]))
    && (forall id, entry | Candidate(pool, responses, id, entry) :: id in result && result[id].query <= entry.query)
  }

  lemma {:induction false} MergingEvents(pool: Pool, events: seq<Event>, query: nat)
    ensures IsMerge(MergeEvents(pool, events, query), pool, [Response(query, events)])
  {
    if events != [] {
      var n := |events| - 1;
      var before := MergeEvents(pool, events[..n], query);
      MergingEvents(pool, events[..n], query);
      EventStep(before, pool, events[..n], events[n], query);
      assert events == events[..n] + [events[n]];
    }
  }

  lemma EventStep(before: Pool, pool: Pool, events: seq<Event>, e: Event, query: nat)
    requires IsMerge(before, pool, [Response(query, events)])
    ensures IsMerge(MergeEvent(before, e, query), pool, [Response(query, events + [e])])
  {
    var r, s := Response(query, events), Response(query, events + [e]);
    var after := MergeEvent(before, e, query);
    forall id, entry
      ensures Candidate(pool, [s], id, entry)
         <==> Candidate(pool, [r], id, entry) || (id != "" && e.id == id && entry == Entry(e, query))
    {
      assert Has(s, id, entry) <==> Has(r, id, entry) || (id != "" && e.id == id && entry == Entry(e, query));
    }
    forall id <- after ensures Candidate(pool, [s], id, after[id]) {
      if id in before && after[id] == before[id] {
        assert Candidate(pool, [r], id, before[id]);
      }
    }
  }

  lemma {:induction false} MergingAll(pool: Pool, responses: seq<Response>)
    ensures IsMerge(MergeAll(pool, responses), pool, responses)
  {
    if responses != [] {
      var n := |responses| - 1;
      var before := MergeAll(pool, responses[..n]);
      MergingAll(pool, responses[..n]);
      MergingEvents(before, responses[n].events, responses[n].query);
      assert Response(responses[n].query, responses[n].events) == responses[n];
      MergeComposes(pool, before, MergeAll(pool, responses), responses[..n], responses[n]);
      assert responses == responses[..n] + [responses[n]];
    }
  }

  lemma MergeComposes(pool: Pool, before: Pool, after: Pool, responses: seq<Response>, r: Response)
    requires IsMerge(before, pool, responses) && IsMerge(after, before, [r])
    ensures IsMerge(after, pool, responses + [r])
  {
    forall id, entry
      ensures Candidate(pool, responses + [r], id, entry)
         <==> Candidate(pool, responses, id, entry) || Has(r, id, entry)
    {
      assert forall x :: x in responses + [r] <==> x in responses || x == r;
    }
    forall id <- after ensures Candidate(pool, responses + [r], id, after[id]) {
      assert Candidate(before, [r], id, after[id]);
      if !Has(r, id, after[id]) {
        assert Candidate(pool, responses, id, before[id]);
      }
    }
    forall id, entry | Candidate(pool, responses + [r], id, entry)
      ensures id in after && after[id].query <= entry.query
    {
      if Candidate(pool, responses, id, entry) {
        assert id in before && before[id].query <= entry.query;
        assert Candidate(before, [r], id, before[id]);
      } else {
        assert Candidate(before, [r], id, entry);
      }
    }
  }

  // ---------------------------------------------------------------- confluence

  lemma SameCandidates(pool: Pool, xs: seq<Response>, ys: seq<Response>)
    requires multiset(xs) == multiset(ys)
    ensures forall id, entry :: Candidate(pool, xs, id, entry) <==> Candidate(pool, ys, id, entry)
  {
    assert forall r :: r in xs <==> r in multiset(xs);
    assert forall r :: r in ys <==> r in multiset(ys);
  }

  /** The completion order changes neither the set of events found nor the query index kept for each. */
  lemma MergeIsConfluent(pool: Pool, xs: seq<Response>, ys: seq<Response>)
    requires multiset(xs) == multiset(ys)
    ensures MergeAll(pool, xs).Keys == MergeAll(pool, ys).Keys
    ensures forall id <- MergeAll(pool, xs) :: MergeAll(pool, xs)[id].query == MergeAll(pool, ys)[id].query
  {
    MergingAll(pool, xs);
    MergingAll(pool, ys);
    SameCandidates(pool, xs, ys);
  }

  /** Starting from an empty pool, the index kept for an event is the least query index that returned it. */
  lemma KeptIndexIsLeast(responses: seq<Response>, id: string)
    requires id in MergeAll(map[], responses)
    ensures var kept := MergeAll(map[], responses)[id];
            && (exists r <- responses :: Has(r, id, kept))
            && (forall r <- responses, e <- r.events | e.id == id :: kept.query <= r.query)
  {
    MergingAll(map[], responses);
    var kept := MergeAll(map[], responses)[id];
    assert Candidate(map[], responses, id, kept);
    forall r <- responses, e <- r.events | e.id == id ensures kept.query <= r.query {
      assert Has(r, id, Entry(e, r.query));
      assert Candidate(map[], responses, id, Entry(e, r.query));
    }
  }

  /** The second pass, whose queries are numbered after those of the first, leaves every event already found alone. */
  lemma SecondPassOnlyAdds(first: Pool, responses: seq<Response>, start: nat)
    requires forall id <- first :: first[id].query < start
    requires forall r <- responses :: r.query >= start
    ensures forall id <- first :: id in MergeAll(first, responses) && MergeAll(first, responses)[id] == first[id]
  {
    MergingAll(first, responses);
    var result := MergeAll(first, responses);
    forall id <- first ensures id in result && result[id] == first[id] {
      assert Candidate(first, responses, id, first[id]);
      assert Candidate(first, responses, id, result[id]);
    }
  }

  /** The two passes of a search: what the first one found, with its index, is final. */
  lemma FirstPassIsFinal(pass1: seq<Response>, pass2: seq<Response>, start: nat)
    requires forall r <- pass1 :: r.query < start
    requires forall r <- pass2 :: r.query >= start
    ensures var first := MergeAll(map[], pass1);
            forall id <- first :: id in MergeAll(first, pass2) && MergeAll(first, pass2)[id] == first[id]
  {
    var first := MergeAll(map[], pass1);
    forall id <- first ensures first[id].query < start {
      KeptIndexIsLeast(pass1, id);
    }
    SecondPassOnlyAdds(first, pass2, start);
  }

  // ---------------------------------------------------------------- which body is kept

  function At(pool: Pool, id: string): Option<Entry> {
    if id in pool then Some(pool[id]) else None
  }

  function FirstOf(events: seq<Event>, id: string): Option<Event> {
    if events == [] then None
    else
      var before, last := FirstOf(events[..|events| - 1], id), events[|events| - 1];
      if before.Some? then before else if last.id == id then Some(last) else None
  }

  /** The response names `id` under a smaller index than the entry held for it. */
  predicate Improves(held: Option<Entry>, r: Response, id: string) {
    id != "" && FirstOf(r.events, id).Some? && (held.None? || r.query < held.value.query)
  }

  function Kept(held: Option<Entry>, r: Response, id: string): Option<Entry> {
    if Improves(held, r, id) then Some(Entry(FirstOf(r.events, id).value, r.query)) else held
  }

  function KeptAll(held: Option<Entry>, responses: seq<Response>, id: string): Option<Entry> {
    if responses == [] then held
    else Kept(KeptAll(held, responses[..|responses| - 1], id), responses[|responses| - 1], id)
  }

  lemma {:induction false} MergeKeepsFirst(pool: Pool, events: seq<Event>, query: nat, id: string)
    ensures At(MergeEvents(pool, events, query), id) == Kept(At(pool, id), Response(query, events), id)
  {
    if events != [] {
      MergeKeepsFirst(pool, events[..|events| - 1], query, id);
    }
  }

  lemma {:induction false} MergeAllKeeps(pool: Pool, responses: seq<Response>, id: string)
    ensures At(MergeAll(pool, responses), id) == KeptAll(At(pool, id), responses, id)
  {
    if responses != [] {
      var n := |responses| - 1;
      MergeAllKeeps(pool, responses[..n], id);
      MergeKeepsFirst(MergeAll(pool, responses[..n]), responses[n].events, responses[n].query, id);
      assert Response(responses[n].query, responses[n].events) == responses[n];
    }
  }

  /** Among the responses that name `id` under a smaller index, `r` has the least one. */
  ghost predicate IsLeast(held: Option<Entry>, responses: seq<Response>, r: Response, id: string) {
    r in responses && Improves(held, r, id) && forall s <- responses | Improves(held, s, id) :: r.query <= s.query
  }

  ghost predicate IsKept(kept: Option<Entry>, held: Option<Entry>, responses: seq<Response>, id: string) {
    || (kept == held && forall r <- responses :: !Improves(held, r, id))
    || exists r <- responses ::
         IsLeast(held, responses, r, id) && kept == Some(Entry(FirstOf(r.events, id).value, r.query))
  }

  lemma {:induction false} KeptIsFromLeast(held: Option<Entry>, responses: seq<Response>, id: string)
    ensures IsKept(KeptAll(held, responses, id), held, responses, id)
  {
    if responses != [] {
      var n := |responses| - 1;
      KeptIsFromLeast(held, responses[..n], id);
      KeptSnoc(KeptAll(held, responses[..n], id), held, responses[..n], responses[n], id);
      assert responses == responses[..n] + [responses[n]];
    }
  }

  lemma KeptSnoc(kept: Option<Entry>, held: Option<Entry>, responses: seq<Response>, r: Response, id: string)
    requires IsKept(kept, held, responses, id)
    ensures IsKept(Kept(kept, r, id), held, responses + [r], id)
  {
    var all := responses + [r];
    assert forall s :: s in all <==> s in responses || s == r;
    if Improves(kept, r, id) {
      assert IsLeast(held, all, r, id);
    } else if s :| s in responses && IsLeast(held, responses, s, id)
                   && kept == Some(Entry(FirstOf(s.events, id).value, s.query)) {
      assert IsLeast(held, all, s, id);
    }
  }

  /** A response of least index that completes first settles the entry. */
  lemma {:induction false} LeastFirstIsKept(held: Option<Entry>, r: Response, rest: seq<Response>, id: string)
    requires IsLeast(held, [r] + rest, r, id)
    ensures KeptAll(held, [r] + rest, id) == Some(Entry(FirstOf(r.events, id).value, r.query))
  {
    var all := [r] + rest;
    if rest == [] {
      assert all[..0] == [];
    } else {
      var init, last := rest[..|rest| - 1], rest[|rest| - 1];
      assert all[..|all| - 1] == [r] + init && all[|all| - 1] == last && last in all;
      assert forall s <- [r] + init :: s in all;
      LeastFirstIsKept(held, r, init, id);
    }
  }

  lemma MoveToFront(responses: seq<Response>, r: Response) returns (rest: seq<Response>)
    requires r in responses
    ensures multiset([r] + rest) == multiset(responses)
  {
    var k :| 0 <= k < |responses| && responses[k] == r;
    rest := responses[..k] + responses[k + 1..];
    assert responses == responses[..k] + [r] + responses[k + 1..];
  }

  ghost predicate LeastAgree(held: Option<Entry>, responses: seq<Response>, id: string) {
    forall r <- responses, s <- responses | IsLeast(held, responses, r, id) && IsLeast(held, responses, s, id) ::
      FirstOf(r.events, id) == FirstOf(s.events, id)
  }

  ghost predicate SameForAllOrders(pool: Pool, responses: seq<Response>, id: string) {
    forall order: seq<Response> | multiset(order) == multiset(responses) ::
      At(MergeAll(pool, order), id) == At(MergeAll(pool, responses), id)
  }

  lemma SameMembers(xs: seq<Response>, ys: seq<Response>)
    requires multiset(xs) == multiset(ys)
    ensures forall r :: r in xs <==> r in ys
  {
    assert forall r :: r in xs <==> r in multiset(xs);
    assert forall r :: r in ys <==> r in multiset(ys);
  }

  /**
    Every completion order keeps the same entry for an event exactly when the responses of least index
    that name it agree on the first event they give for it.
   */
  lemma EntryIsDeterminedIff(pool: Pool, responses: seq<Response>, id: string)
    ensures SameForAllOrders(pool, responses, id) <==> LeastAgree(At(pool, id), responses, id)
  {
    if LeastAgree(At(pool, id), responses, id) {
      forall order: seq<Response> | multiset(order) == multiset(responses)
        ensures At(MergeAll(pool, order), id) == At(MergeAll(pool, responses), id)
      {
        AgreementFixesEntry(pool, order, responses, id);
      }
    }
    if SameForAllOrders(pool, responses, id) {
      forall r <- responses, s <- responses
        | IsLeast(At(pool, id), responses, r, id) && IsLeast(At(pool, id), responses, s, id)
        ensures FirstOf(r.events, id) == FirstOf(s.events, id)
      {
        var x := OrderKeeping(pool, responses, r, id);
        var y := OrderKeeping(pool, responses, s, id);
        assert At(MergeAll(pool, x), id) == At(MergeAll(pool, y), id);
      }
    }
  }

  lemma AgreementFixesEntry(pool: Pool, order: seq<Response>, responses: seq<Response>, id: string)
    requires multiset(order) == multiset(responses) && LeastAgree(At(pool, id), responses, id)
    ensures At(MergeAll(pool, order), id) == At(MergeAll(pool, responses), id)
  {
    MergeAllKeeps(pool, order, id);
    MergeAllKeeps(pool, responses, id);
    KeptIsFromLeast(At(pool, id), order, id);
    KeptIsFromLeast(At(pool, id), responses, id);
    SameMembers(order, responses);
    forall r ensures IsLeast(At(pool, id), order, r, id) <==> IsLeast(At(pool, id), responses, r, id) {
    }
  }

  lemma OrderKeeping(pool: Pool, responses: seq<Response>, r: Response, id: string) returns (order: seq<Response>)
    requires IsLeast(At(pool, id), responses, r, id)
    ensures multiset(order) == multiset(responses)
    ensures At(MergeAll(pool, order), id) == Some(Entry(FirstOf(r.events, id).value, r.query))
  {
    var rest := MoveToFront(responses, r);
    order := [r] + rest;
    SameMembers(order, responses);
    LeastFirstIsKept(At(pool, id), r, rest, id);
    MergeAllKeeps(pool, order, id);
  }

  /** They need not agree: two pages of one query may disagree about an event. */
  lemma BodyDependsOnOrder()
    ensures var x, y := Response(0, [Event("a", "1")]), Response(0, [Event("a", "2")]);
            MergeAll(map[], [x, y]) != MergeAll(map[], [y, x])
  {
    var x, y := Response(0, [Event("a", "1")]), Response(0, [Event("a", "2")]);
    OneThenOther(x, y);
    OneThenOther(y, x);
    assert MergeAll(map[], [x, y])["a"].event.body != MergeAll(map[], [y, x])["a"].event.body;
  }

  lemma OneThenOther(x: Response, y: Response)
    requires x.query == y.query && |x.events| == |y.events| == 1
    requires x.events[0].id == y.events[0].id == "a"
    ensures MergeAll(map[], [x, y]) == map["a" := Entry(x.events[0], x.query)]
  {
    assert [x, y][..1] == [x] && [x][..0] == [];
    assert x.events[..0] == [] && y.events[..0] == [];
    assert MergeAll(map[], [x]) == MergeEvents(map[], x.events, x.query);
    assert MergeEvents(map[], x.events, x.query) == MergeEvent(MergeEvents(map[], [], x.query), x.events[0], x.query);
    var pool := map["a" := Entry(x.events[0], x.query)];
    assert MergeEvents(pool, y.events, y.query) == MergeEvent(MergeEvents(pool, [], y.query), y.events[0], y.query);
  }
}
