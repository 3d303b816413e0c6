/** Cursor paging over the events of one trace (internal/store/v1_trace_memory.go). */
module TracePaging {
  import opened Base
  import opened Sorting
  import opened TraceStore
  import TraceWindows

  ghost predicate UniqueIds(events: seq<Event>) {
    forall i, j :: 0 <= i < j < |events| ==> events[i].id != events[j].id
  }

  /** Newest first, at the same instant the greater id first, without repetition. */
  ghost predicate Descending(sorted: seq<Event>) {
    && (forall i, j :: 0 <= i < j < |sorted| ==> sorted[i].id != sorted[j].id)
    && (forall i, j :: 0 <= i < j < |sorted| ==>
          sorted[i].at > sorted[j].at || (sorted[i].at == sorted[j].at && sorted[i].id > sorted[j].id))
  }

  /** The page that follows a cursor taken from the last event of the page before. */
  function NextPage(sorted: seq<Event>, page: seq<Event>, limit: nat): seq<Event> {
    if page == [] then []
    else PageOf(sorted, page[|page| - 1].at, page[|page| - 1].id, limit)
  }

  /** The k-th page of a reader that starts without a cursor and then follows the last event it saw. */
  function Page(sorted: seq<Event>, k: nat, limit: nat): seq<Event> {
    if k == 0 then PageOf(sorted, 0, 0, limit) else NextPage(sorted, Page(sorted, k - 1, limit), limit)
  }

  /** The k-th stretch of `limit` events. */
  function Slice(sorted: seq<Event>, k: nat, limit: nat): seq<Event> {
    sorted[Least(Times(limit, k), |sorted|)..Least(Times(limit, k + 1), |sorted|)]
  }

  // ----- what lies behind a cursor -----

  /** The event comes before the cursor's in time, or at its instant with a smaller id; no time is no cursor. */
  predicate Behind(e: Event, before: Time, beforeId: Id) {
    before == 0 || e.at < before || (e.at == before && e.id < beforeId)
  }

  lemma {:induction false} RemainingIff(sorted: seq<Event>, before: Time, beforeId: Id, e: Event)
    ensures e in Remaining(sorted, before, beforeId) <==> e in sorted && Behind(e, before, beforeId)
    decreases |sorted|
  {
    if sorted != [] { RemainingIff(sorted[1..], before, beforeId, e); }
  }

  /** A page holds the events behind its cursor, the first `limit` of them, or all if there is no limit. */
  lemma PageIff(sorted: seq<Event>, before: Time, beforeId: Id, limit: nat)
    ensures var all := PageOf(sorted, before, beforeId, 0);
            && (forall e :: e in all <==> e in sorted && Behind(e, before, beforeId))
            && PageOf(sorted, before, beforeId, limit) == all[..if limit == 0 then |all| else Least(limit, |all|)]
  {
    forall e ensures e in PageOf(sorted, before, beforeId, 0) <==> e in sorted && Behind(e, before, beforeId) {
      RemainingIff(sorted, before, beforeId, e);
    }
  }

  lemma {:induction false} WithoutCursor(sorted: seq<Event>, beforeId: Id)
    ensures Remaining(sorted, 0, beforeId) == sorted
    decreases |sorted|
  {
    if sorted != [] {
      WithoutCursor(sorted[1..], beforeId);
    }
  }

  lemma {:induction false} AllBehind(sorted: seq<Event>, before: Time, beforeId: Id)
    requires forall i :: 0 <= i < |sorted| ==> !AtOrAfterCursor(sorted[i], before, beforeId)
    ensures Remaining(sorted, before, beforeId) == sorted
    decreases |sorted|
  {
    if sorted != [] {
      AllBehind(sorted[1..], before, beforeId);
    }
  }

  lemma {:induction false} AllAhead(sorted: seq<Event>, before: Time, beforeId: Id)
    requires before != 0 && forall i :: 0 <= i < |sorted| ==> AtOrAfterCursor(sorted[i], before, beforeId)
    ensures Remaining(sorted, before, beforeId) == []
    decreases |sorted|
  {
    if sorted != [] {
      AllAhead(sorted[1..], before, beforeId);
    }
  }

  /** Behind the cursor of event i lies exactly what follows it. */
  lemma BehindCursor(sorted: seq<Event>, i: nat)
    requires Descending(sorted) && i < |sorted| && sorted[i].at != 0
    ensures Remaining(sorted, sorted[i].at, sorted[i].id) == sorted[i + 1..]
  {
    var ahead, behind := sorted[..i + 1], sorted[i + 1..];
    assert sorted == ahead + behind;
    RemainingSplits(ahead, behind, sorted[i].at, sorted[i].id);
    forall k | 0 <= k < |ahead| ensures AtOrAfterCursor(ahead[k], sorted[i].at, sorted[i].id) {
      assert k < i ==> NotBefore(sorted[k], sorted[i]);
    }
    AllAhead(ahead, sorted[i].at, sorted[i].id);
    forall k | 0 <= k < |behind| ensures !AtOrAfterCursor(behind[k], sorted[i].at, sorted[i].id) {
      assert NotBefore(sorted[i], sorted[i + 1 + k]) && sorted[i].id != sorted[i + 1 + k].id;
    }
    AllBehind(behind, sorted[i].at, sorted[i].id);
  }

  // ----- pages are slices -----

  /** The index of the event that ends page k, when there is one. */
  function PageEnd(sorted: seq<Event>, k: nat, limit: nat): int {
    Least(Times(limit, k + 1), |sorted|) - 1
  }

  /** A zero timestamp in a cursor means "no cursor", so an event without a time must not end a page. */
  ghost predicate Cursable(sorted: seq<Event>, limit: nat) {
    forall k: nat :: 0 <= PageEnd(sorted, k, limit) ==> sorted[PageEnd(sorted, k, limit)].at != 0
  }

  lemma SliceStep(sorted: seq<Event>, k: nat, limit: nat)
    requires limit >= 1 && Descending(sorted) && Times(limit, k) < |sorted| && sorted[PageEnd(sorted, k, limit)].at != 0
    ensures NextPage(sorted, Slice(sorted, k, limit), limit) == Slice(sorted, k + 1, limit)
  {
    var lo, hi := Times(limit, k), Least(Times(limit, k + 1), |sorted|);
    assert Times(limit, k + 1) == lo + limit && Times(limit, k + 2) == lo + limit + limit;
    var page := Slice(sorted, k, limit);
    assert page[|page| - 1] == sorted[hi - 1];
    BehindCursor(sorted, hi - 1);
  }

  lemma FirstSlice(sorted: seq<Event>, limit: nat)
    requires limit >= 1
    ensures PageOf(sorted, 0, 0, limit) == Slice(sorted, 0, limit)
  {
    WithoutCursor(sorted, 0);
  }

  lemma BeyondTheEnd(sorted: seq<Event>, k: nat, limit: nat)
    requires Times(limit, k) >= |sorted|
    ensures Slice(sorted, k, limit) == [] && Slice(sorted, k + 1, limit) == []
  {
    assert Times(limit, k + 1) == Times(limit, k) + limit && Times(limit, k + 1 + 1) == Times(limit, k + 1) + limit;
  }

  lemma {:induction false} PagesAreSlices(sorted: seq<Event>, k: nat, limit: nat)
    requires limit >= 1 && Descending(sorted) && Cursable(sorted, limit)
    ensures Page(sorted, k, limit) == Slice(sorted, k, limit)
    decreases k
  {
    if k == 0 {
      FirstSlice(sorted, limit);
    } else {
      PagesAreSlices(sorted, k - 1, limit);
      if Times(limit, k - 1) < |sorted| {
        assert 0 <= PageEnd(sorted, k - 1, limit);
        SliceStep(sorted, k - 1, limit);
      } else {
        BeyondTheEnd(sorted, k - 1, limit);
      }
    }
  }

  // ----- the whole reading -----

  function Concatenated(sorted: seq<Event>, pages: nat, limit: nat): seq<Event> {
    if pages == 0 then [] else Concatenated(sorted, pages - 1, limit) + Page(sorted, pages - 1, limit)
  }

  lemma {:induction false} ConcatenatedPrefix(sorted: seq<Event>, pages: nat, limit: nat)
    requires limit >= 1 && Descending(sorted) && Cursable(sorted, limit)
    ensures Concatenated(sorted, pages, limit) == sorted[..Least(Times(limit, pages), |sorted|)]
    decreases pages
  {
    if pages > 0 {
      ConcatenatedPrefix(sorted, pages - 1, limit);
      PagesAreSlices(sorted, pages - 1, limit);
      var lo := Times(limit, pages - 1);
      assert Page(sorted, pages - 1, limit) == sorted[Least(lo, |sorted|)..Least(lo + limit, |sorted|)];
    }
  }

  function PageCount(n: nat, limit: nat): nat
    requires limit >= 1
  {
    (n + limit - 1) / limit
  }

  lemma PageCountBounds(n: nat, limit: nat, k: nat)
    requires limit >= 1
    ensures k < PageCount(n, limit) <==> Times(limit, k) < n
  {
    TimesIsProduct(limit, k);
    var c := PageCount(n, limit);
    var rest := (n + limit - 1) % limit;
    assert n + limit - 1 == c * limit + rest;
    Monotone(k, c - 1, limit);
    Monotone(c, k, limit);
    assert (c - 1) * limit == c * limit - limit;
  }

  lemma Monotone(a: int, b: int, limit: nat)
    ensures a <= b ==> a * limit <= b * limit
  {
    if a <= b {
      assert (b - a) * limit >= 0;
      assert (b - a) * limit == b * limit - a * limit;
    }
  }

  lemma SortedEvents(events: seq<Event>)
    requires UniqueIds(events)
    ensures Descending(Sort(events, NotBefore)) && multiset(Sort(events, NotBefore)) == multiset(events)
  {
    SortIsOrderedPermutation(events, NotBefore);
    var sorted := Sort(events, NotBefore);
    forall i, j | 0 <= i < j < |sorted| ensures sorted[i].id != sorted[j].id {
      assert sorted[i] in multiset(events) && sorted[j] in multiset(events);
      assert sorted[i] in events && sorted[j] in events;
      if sorted[i] == sorted[j] {
        TwiceInSequence(sorted, i, j);
        UniqueOnce(events, sorted[i]);
        assert false;
      }
    }
  }

  /** With unique ids there is one newest-first arrangement, whatever sorting algorithm produced it. */
  lemma OnlyArrangement(events: seq<Event>, other: seq<Event>)
    requires UniqueIds(events) && multiset(other) == multiset(events) && SortedBy(other, NotBefore)
    ensures other == Sort(events, NotBefore)
  {
    SortedEvents(events);
    var sorted := Sort(events, NotBefore);
    assert Distinguishes(sorted, NotBefore);
    SortedIsUnique(sorted, other, NotBefore);
  }

  lemma {:induction false} UniqueOnce(events: seq<Event>, e: Event)
    requires UniqueIds(events)
    ensures multiset(events)[e] <= 1
  {
    if events != [] {
      var front, last := events[..|events| - 1], events[|events| - 1];
      assert events == front + [last];
      UniqueOnce(front, e);
      assert forall i :: 0 <= i < |front| ==> front[i].id != last.id;
    }
  }

  /** Following cursors yields every event once, newest first, in exactly ceil(n / limit) non-empty pages. */
  lemma PagingIsComplete(events: seq<Event>, limit: nat)
    requires limit >= 1 && UniqueIds(events) && Cursable(Sort(events, NotBefore), limit)
    ensures var sorted := Sort(events, NotBefore);
            && multiset(sorted) == multiset(events) && Descending(sorted)
            && Concatenated(sorted, PageCount(|events|, limit), limit) == sorted
            && (forall k: nat :: Page(sorted, k, limit) != [] <==> k < PageCount(|events|, limit))
  {
    SortedEvents(events);
    var sorted := Sort(events, NotBefore);
    assert |sorted| == |multiset(sorted)| == |events|;
    var pages := PageCount(|events|, limit);
    ConcatenatedPrefix(sorted, pages, limit);
    PageCountBounds(|sorted|, limit, pages);
    assert sorted[..|sorted|] == sorted;
    forall k: nat ensures Page(sorted, k, limit) != [] <==> k < pages {
      NonEmptyPage(sorted, k, limit);
    }
  }

  lemma NonEmptyPage(sorted: seq<Event>, k: nat, limit: nat)
    requires limit >= 1 && Descending(sorted) && Cursable(sorted, limit)
    ensures Page(sorted, k, limit) != [] <==> k < PageCount(|sorted|, limit)
  {
    PagesAreSlices(sorted, k, limit);
    PageCountBounds(|sorted|, limit, k);
  }

  /** The condition is exact: pages are the successive slices iff no event without a time ends one. */
  lemma PagingIff(sorted: seq<Event>, limit: nat)
    requires limit >= 1 && Descending(sorted)
    ensures (forall k: nat :: Page(sorted, k, limit) == Slice(sorted, k, limit)) <==> Cursable(sorted, limit)
  {
    if Cursable(sorted, limit) {
      forall k: nat ensures Page(sorted, k, limit) == Slice(sorted, k, limit) {
        PagesAreSlices(sorted, k, limit);
      }
    } else {
      var k: nat :| 0 <= PageEnd(sorted, k, limit) && sorted[PageEnd(sorted, k, limit)].at == 0;
      UntimedEndRestarts(sorted, k, limit);
    }
  }

  /** A page that ends in an event without a time is followed by the first page again. */
  lemma UntimedEndRestarts(sorted: seq<Event>, k: nat, limit: nat)
    requires limit >= 1 && Descending(sorted)
    requires 0 <= PageEnd(sorted, k, limit) && sorted[PageEnd(sorted, k, limit)].at == 0
    ensures exists j: nat :: Page(sorted, j, limit) != Slice(sorted, j, limit)
  {
    var j := PageEndingAt(sorted, k, limit);
    if Page(sorted, j, limit) == Slice(sorted, j, limit) {
      RestartedPage(sorted, j, limit);
    }
  }

  /** The non-empty page with the same last event. */
  lemma PageEndingAt(sorted: seq<Event>, k: nat, limit: nat) returns (j: nat)
    requires limit >= 1 && 0 <= PageEnd(sorted, k, limit)
    ensures Times(limit, j) < |sorted| && PageEnd(sorted, j, limit) == PageEnd(sorted, k, limit)
  {
    j := k;
    if Times(limit, k) >= |sorted| {
      j := PageCount(|sorted|, limit) - 1;
      PageCountBounds(|sorted|, limit, j);
      PageCountBounds(|sorted|, limit, j + 1);
    }
  }

  lemma RestartedPage(sorted: seq<Event>, j: nat, limit: nat)
    requires limit >= 1 && Descending(sorted) && Times(limit, j) < |sorted| && sorted[PageEnd(sorted, j, limit)].at == 0
    requires Page(sorted, j, limit) == Slice(sorted, j, limit)
    ensures Page(sorted, j + 1, limit) != Slice(sorted, j + 1, limit)
  {
    var lo := Times(limit, j);
    assert Times(limit, j + 1) == lo + limit && Times(limit, j + 1 + 1) == lo + limit + limit;
    var page, next := Slice(sorted, j, limit), Slice(sorted, j + 1, limit);
    assert page[|page| - 1] == sorted[PageEnd(sorted, j, limit)];
    WithoutCursor(sorted, page[|page| - 1].id);
    StartsAt(sorted, lo + limit, limit, next);
    assert Page(sorted, j + 1, limit)[0] == sorted[0];
  }

  /** A later slice does not start with the first event. */
  lemma StartsAt(sorted: seq<Event>, lo: nat, limit: nat, slice: seq<Event>)
    requires Descending(sorted) && lo > 0 && slice == sorted[Least(lo, |sorted|)..Least(lo + limit, |sorted|)]
    ensures slice != [] ==> slice[0].id != sorted[0].id
  {}

  // ----- stores that a run can reach -----

  /** The clock read by a step, if any, does not stand at Go's zero time. */
  predicate Clocked(step: TraceWindows.Step) {
    match step
    case Append(_, _, now, _) => now != 0
    case Close(now, _, _, _) => now != 0
    case _ => true
  }

  ghost predicate Timed(s: Tables) {
    forall t :: t in s.events ==> AllTimed(s.events[t])
  }

  ghost predicate AllTimed(events: seq<Event>) {
    forall i :: 0 <= i < |events| ==> events[i].at != 0
  }

  lemma SettledIsTimed(s: Tables, ids: set<Id>, how: Settling)
    requires Valid(s) && Timed(s) && how.at != 0
    ensures Timed(Settled(s, ids, how))
  {
    var r := Settled(s, ids, how);
    forall t | t in r.events ensures AllTimed(r.events[t]) {
      assert AllTimed(s.events[t]);
    }
  }

  lemma StepKeepsTimed(s: Tables, step: TraceWindows.Step)
    requires Valid(s) && Timed(s) && Clocked(step)
    ensures Timed(TraceWindows.Apply(s, step))
  {
    match step
    case EnsureTrace(t, trace, now) =>
    case Append(t, input, now, id) =>
      assert t in s.events ==> AllTimed(s.events[t]);
    case Accept(t, input, message, now, id) =>
      assert t in s.events ==> AllTimed(s.events[t]);
    case Observe(charger, action, connector, at, uuid) =>
      if ValidObservation(action, connector, at) {
        SettledIsTimed(s, Matching(s, charger, action, connector, at), Settling(Observed, at, FollowOn, Some(connector), uuid));
      }
    case Close(now, limit, ids, uuid) =>
      SettledIsTimed(s, ids, Settling(Closed, now, FollowOnClosed, None, uuid));
  }

  lemma {:induction false} RunKeepsTimed(s: Tables, steps: seq<TraceWindows.Step>)
    requires Valid(s) && Timed(s) && forall i :: 0 <= i < |steps| ==> Clocked(steps[i])
    ensures Timed(TraceWindows.Run(s, steps))
    decreases |steps|
  {
    if steps != [] {
      StepKeepsTimed(s, steps[0]);
      RunKeepsTimed(TraceWindows.Apply(s, steps[0]), steps[1..]);
    }
  }

  /** So in every run under a set clock, paging a trace with unique event ids is complete. */
  lemma ReachablePagingIsComplete(steps: seq<TraceWindows.Step>, t: Id, limit: nat)
    requires forall i :: 0 <= i < |steps| ==> Clocked(steps[i])
    requires limit >= 1 && t in TraceWindows.Run(EMPTY, steps).events && UniqueIds(TraceWindows.Run(EMPTY, steps).events[t])
    ensures var events := TraceWindows.Run(EMPTY, steps).events[t];
            var sorted := Sort(events, NotBefore);
            && Concatenated(sorted, PageCount(|events|, limit), limit) == sorted
            && (forall k: nat :: Page(sorted, k, limit) != [] <==> k < PageCount(|events|, limit))
  {
    RunKeepsTimed(EMPTY, steps);
    var events := TraceWindows.Run(EMPTY, steps).events[t];
    assert AllTimed(events);
    SortedEvents(events);
    var sorted := Sort(events, NotBefore);
    forall i | 0 <= i < |sorted| ensures sorted[i].at != 0 {
      assert sorted[i] in multiset(events);
      assert sorted[i] in events;
    }
    PagingIsComplete(events, limit);
  }
}
