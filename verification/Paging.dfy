/** `threads_partial`: pinned threads are brought onto the first page and left out of the later ones. */
module Paging {
  import opened Records
  import opened Sorting

  /** A listed thread; only those whose directory is the project's are shown. */
  datatype Thread = Thread(id: string, inProject: bool)

  datatype Page = Page(data: seq<Thread>, next: Option<nat>)

  const PAGE_LIMIT := 30
  const SCAN_LIMIT := 100

  function Here(threads: seq<Thread>): seq<Thread> {
    Filter(threads, (t: Thread) => t.inProject)
  }

  function Pinned(threads: seq<Thread>, pins: set<string>): seq<Thread> {
    Filter(threads, IsPinned(pins))
  }

  function Unpinned(threads: seq<Thread>, pins: set<string>): seq<Thread> {
    Filter(threads, Unless(IsPinned(pins)))
  }

  function IsPinned(pins: set<string>): (Thread -> bool) {
    (t: Thread) => t.id in pins
  }

  function PageEnd(listing: seq<Thread>, start: nat, limit: nat): (end: nat)
    requires start <= |listing|
    ensures start <= end <= |listing|
  {
    if start + limit < |listing| then start + limit else |listing|
  }

  /** One page of a fixed listing; a cursor is the place where the next page starts. */
  function ListThreads(listing: seq<Thread>, cursor: Option<nat>, limit: nat): (page: Page)
    requires limit > 0 && cursor.GetOr(0) <= |listing|
    ensures page.next.Some? ==> cursor.GetOr(0) < page.next.value < |listing|
  {
    var start := cursor.GetOr(0);
    var end := PageEnd(listing, start, limit);
    Page(Here(listing[start..end]), if end < |listing| then Some(end) else None)
  }

  ghost predicate DistinctIds(threads: seq<Thread>) {
    forall i, j | 0 <= i < j < |threads| :: threads[i].id != threads[j].id
  }

  function Ids(threads: seq<Thread>): (ids: set<string>)
    ensures forall t | t in threads :: t.id in ids
  {
    set t | t in threads :: t.id
  }

  // ----- filters -----

  lemma PinnedTwice(threads: seq<Thread>, pins: set<string>)
    ensures Pinned(Pinned(threads, pins), pins) == Pinned(threads, pins)
    ensures Unpinned(Pinned(threads, pins), pins) == []
  {
    FilterMembers(threads, IsPinned(pins));
    FilterKept(Pinned(threads, pins), IsPinned(pins));
    FilterDropped(Pinned(threads, pins), Unless(IsPinned(pins)));
  }

  lemma UnpinnedTwice(threads: seq<Thread>, pins: set<string>)
    ensures Unpinned(Unpinned(threads, pins), pins) == Unpinned(threads, pins)
    ensures Pinned(Unpinned(threads, pins), pins) == []
  {
    FilterMembers(threads, Unless(IsPinned(pins)));
    FilterKept(Unpinned(threads, pins), Unless(IsPinned(pins)));
    FilterDropped(Unpinned(threads, pins), IsPinned(pins));
  }

  lemma NothingPinned(threads: seq<Thread>, pins: set<string>)
    requires forall t | t in threads :: t.id !in pins
    ensures Pinned(threads, pins) == []
  {
    FilterDropped(threads, IsPinned(pins));
  }

  lemma {:induction false} HereMembers(threads: seq<Thread>)
    ensures forall t :: t in Here(threads) <==> t in threads && t.inProject
  {
    FilterMembers(threads, (t: Thread) => t.inProject);
    if threads != [] {
      HereMembers(threads[..|threads| - 1]);
    }
  }

  lemma HereConcat(left: seq<Thread>, right: seq<Thread>)
    ensures Here(left + right) == Here(left) + Here(right)
    decreases |right|
  {
    if right == [] {
      assert left + right == left;
    } else {
      assert (left + right)[..|left + right| - 1] == left + right[..|right| - 1];
      HereConcat(left, right[..|right| - 1]);
    }
  }

  lemma HereSplit(listing: seq<Thread>, low: nat, mid: nat, high: nat)
    requires low <= mid <= high <= |listing|
    ensures Here(listing[low..high]) == Here(listing[low..mid]) + Here(listing[mid..high])
  {
    assert listing[low..high] == listing[low..mid] + listing[mid..high];
    HereConcat(listing[low..mid], listing[mid..high]);
  }

  // ----- one request -----

  /** What one request renders: pins first, all of them on the first page and none on a later one. */
  function Partial(listing: seq<Thread>, pins: set<string>, cursor: Option<nat>): (page: Page)
    requires cursor.GetOr(0) <= |listing|
    ensures page.next.Some? ==> cursor.GetOr(0) < page.next.value < |listing|
  {
    var start := cursor.GetOr(0);
    var end := PageEnd(listing, start, PAGE_LIMIT);
    var next := if end < |listing| then Some(end) else None;
    var shown := Unpinned(Here(listing[start..end]), pins);
    Page(if cursor.None? then Pinned(Here(listing), pins) + shown else shown, next)
  }

  method ThreadsPartial(listing: seq<Thread>, pins: set<string>, cursor: Option<nat>) returns (page: Page)
    requires cursor.GetOr(0) <= |listing| && DistinctIds(listing)
    ensures page == Partial(listing, pins, cursor)
    ensures page.next == if cursor.GetOr(0) + 30 < |listing| then Some(cursor.GetOr(0) + 30) else None
  {
    var payload := ListThreads(listing, cursor, PAGE_LIMIT);
    var data := payload.data;
    if cursor.None? {
      data := PromotePins(listing, pins, payload);
    } else {
      data := Unpinned(data, pins);
    }
    page := Page(StableSort(data, PinsFirst(pins)), payload.next);
    SortPinsFirst(data, pins);
    ghost var end := payload.next.GetOr(|listing|);
    if cursor.None? {
      FirstPage(listing, pins, end);
    } else {
      UnpinnedTwice(payload.data, pins);
    }
  }

  function PinsFirst(pins: set<string>): ((Thread, Thread) -> bool) {
    (a: Thread, b: Thread) => a.id in pins && b.id !in pins
  }

  lemma SortPinsFirst(data: seq<Thread>, pins: set<string>)
    ensures StableSort(data, PinsFirst(pins)) == Pinned(data, pins) + Unpinned(data, pins)
  {
    SortByFlag(data, IsPinned(pins), PinsFirst(pins));
  }

  lemma FirstPage(listing: seq<Thread>, pins: set<string>, end: nat)
    requires end <= |listing|
    ensures var first, later := Here(listing[..end]), Pinned(Here(listing[end..]), pins);
      && Pinned(first + later, pins) == Pinned(Here(listing), pins)
      && Unpinned(first + later, pins) == Unpinned(first, pins)
  {
    var first, rest := Here(listing[..end]), Here(listing[end..]);
    var later := Pinned(rest, pins);
    assert listing == listing[..end] + listing[end..];
    HereConcat(listing[..end], listing[end..]);
    hide Filter, Here;
    FilterConcat(first, later, IsPinned(pins));
    FilterConcat(first, later, Unless(IsPinned(pins)));
    FilterConcat(first, rest, IsPinned(pins));
    PinnedTwice(rest, pins);
  }

  lemma IdsConcat(left: seq<Thread>, right: seq<Thread>)
    ensures Ids(left + right) == Ids(left) + Ids(right)
  {
  }

  lemma {:induction false} DistinctHere(threads: seq<Thread>)
    requires DistinctIds(threads)
    ensures DistinctIds(Here(threads))
  {
    if threads != [] {
      var n := |threads| - 1;
      DistinctHere(threads[..n]);
      HereMembers(threads[..n]);
      var front := Here(threads[..n]);
      forall i | 0 <= i < |front| ensures front[i].id != threads[n].id {
        assert front[i] in threads[..n];
      }
    }
  }

  /** The ids of a page are not those of the earlier ones. */
  lemma NewIds(listing: seq<Thread>, start: nat, end: nat, t: Thread)
    requires DistinctIds(listing) && start <= end <= |listing| && t in Here(listing[start..end])
    ensures t.id !in Ids(Here(listing[..start]))
  {
    HereMembers(listing[start..end]);
    HereMembers(listing[..start]);
    var i :| 0 <= i < end - start && listing[start..end][i] == t;
    assert listing[start + i] == t;
    forall u | u in Here(listing[..start]) ensures u.id != t.id {
      var j :| 0 <= j < start && listing[..start][j] == u;
      assert listing[j] == u;
    }
  }

  /** The pins among some threads that are still missing are taken out. */
  method TakeMissing(threads: seq<Thread>, shown: seq<Thread>, wanted: set<string>, pins: set<string>)
    returns (data: seq<Thread>, missing: set<string>)
    requires DistinctIds(threads) && forall t | t in threads :: t.id in wanted <==> t.id in pins
    ensures data == shown + Pinned(threads, pins)
    ensures missing == wanted - Ids(threads)
  {
    hide Ids, DistinctIds, Pinned;
    data, missing := shown, wanted;
    NothingTaken(threads, pins);
    for i := 0 to |threads|
      invariant data == shown + Pinned(threads[..i], pins)
      invariant missing == wanted - Ids(threads[..i])
    {
      TakenSnoc(threads, pins, i);
      assert threads[i] in threads;
      if threads[i].id in missing {
        data := data + [threads[i]];
        missing := missing - {threads[i].id};
      }
    }
    assert threads[..|threads|] == threads;
  }

  lemma NothingTaken(threads: seq<Thread>, pins: set<string>)
    ensures Pinned(threads[..0], pins) == [] && Ids(threads[..0]) == {}
  {
  }

  lemma TakenSnoc(threads: seq<Thread>, pins: set<string>, i: nat)
    requires i < |threads| && DistinctIds(threads)
    ensures threads[i].id !in Ids(threads[..i])
    ensures Ids(threads[..i + 1]) == Ids(threads[..i]) + {threads[i].id}
    ensures Pinned(threads[..i + 1], pins) == Pinned(threads[..i], pins) + if threads[i].id in pins then [threads[i]] else []
  {
    assert threads[..i + 1] == threads[..i] + [threads[i]];
    IdsConcat(threads[..i], [threads[i]]);
    FilterSnoc(threads[..i + 1], IsPinned(pins));
  }

  /** The scan for the pins that the first page misses, page by page until none is missing. */
  method PromotePins(listing: seq<Thread>, pins: set<string>, payload: Page) returns (data: seq<Thread>)
    requires DistinctIds(listing) && payload == ListThreads(listing, None, PAGE_LIMIT)
    ensures data == payload.data + Pinned(Here(listing[payload.next.GetOr(|listing|)..]), pins)
  {
    hide Filter, Here, Ids, DistinctIds, Pinned;
    data := payload.data;
    var missing, scan := pins - Ids(payload.data), payload.next;
    ghost var first := payload.next.GetOr(|listing|);
    ghost var position := first;
    NothingScanned(listing, pins, first);
    while missing != {} && scan.Some?
      invariant first <= position <= |listing| && scan == if position < |listing| then Some(position) else None
      invariant data == payload.data + Pinned(Here(listing[first..position]), pins)
      invariant missing == pins - Ids(Here(listing[..position]))
      decreases |listing| - position
    {
      var page := ListThreads(listing, scan, SCAN_LIMIT);
      ghost var end := PageEnd(listing, position, SCAN_LIMIT);
      MissingOnPage(listing, pins, position, end, missing);
      ScannedOn(listing, pins, first, position, end);
      data, missing := TakeMissing(page.data, data, missing, pins);
      scan, position := page.next, end;
    }
    NoneLeft(listing, pins, first, position, missing);
  }

  lemma NothingScanned(listing: seq<Thread>, pins: set<string>, first: nat)
    requires first <= |listing|
    ensures Pinned(Here(listing[first..first]), pins) == [] && listing[0..first] == listing[..first]
  {
  }

  lemma MissingOnPage(listing: seq<Thread>, pins: set<string>, start: nat, end: nat, missing: set<string>)
    requires DistinctIds(listing) && start <= end <= |listing| && missing == pins - Ids(Here(listing[..start]))
    ensures DistinctIds(Here(listing[start..end]))
    ensures forall t | t in Here(listing[start..end]) :: t.id in missing <==> t.id in pins
  {
    DistinctPage(listing, start, end);
    hide Ids, Here, DistinctIds;
    forall t | t in Here(listing[start..end]) ensures t.id in missing <==> t.id in pins {
      NewIds(listing, start, end, t);
    }
  }

  lemma ScannedOn(listing: seq<Thread>, pins: set<string>, first: nat, start: nat, end: nat)
    requires first <= start <= end <= |listing|
    ensures Pinned(Here(listing[first..end]), pins)
      == Pinned(Here(listing[first..start]), pins) + Pinned(Here(listing[start..end]), pins)
    ensures Ids(Here(listing[..end])) == Ids(Here(listing[..start])) + Ids(Here(listing[start..end]))
  {
    hide Ids, Here, Pinned;
    PinnedConcat(Here(listing[first..start]), Here(listing[start..end]), pins);
    HereSplit(listing, first, start, end);
    HereSplit(listing, 0, start, end);
    IdsConcat(Here(listing[..start]), Here(listing[start..end]));
    assert listing[0..start] == listing[..start] && listing[0..end] == listing[..end];
  }

  lemma PinnedConcat(left: seq<Thread>, right: seq<Thread>, pins: set<string>)
    ensures Pinned(left + right, pins) == Pinned(left, pins) + Pinned(right, pins)
  {
    FilterConcat(left, right, IsPinned(pins));
  }

  lemma DistinctPage(listing: seq<Thread>, start: nat, end: nat)
    requires DistinctIds(listing) && start <= end <= |listing|
    ensures DistinctIds(Here(listing[start..end]))
  {
    assert forall i | 0 <= i < end - start :: listing[start..end][i] == listing[start + i];
    DistinctHere(listing[start..end]);
  }

  /** When no pin is missing, the rest of the listing holds none. */
  lemma NoneLeft(listing: seq<Thread>, pins: set<string>, first: nat, position: nat, missing: set<string>)
    requires DistinctIds(listing) && first <= position <= |listing| && missing == pins - Ids(Here(listing[..position]))
    requires missing == {} || position == |listing|
    ensures Pinned(Here(listing[first..]), pins) == Pinned(Here(listing[first..position]), pins)
  {
    hide Filter, Ids, Here, DistinctIds;
    var rest := Here(listing[position..|listing|]);
    HereSplit(listing, first, position, |listing|);
    assert listing[first..|listing|] == listing[first..];
    PinnedConcat(Here(listing[first..position]), rest, pins);
    if missing == {} {
      forall t | t in rest ensures t.id !in pins {
        NewIds(listing, position, |listing|, t);
        assert t.id !in pins - Ids(Here(listing[..position]));
      }
    } else {
      HereMembers(listing[position..|listing|]);
    }
    NothingPinned(rest, pins);
  }

  // ----- following the cursors -----

  /** Everything shown from a cursor on, page after page. */
  function Followed(listing: seq<Thread>, pins: set<string>, cursor: Option<nat>): seq<Thread>
    requires cursor.GetOr(0) <= |listing|
    decreases |listing| - cursor.GetOr(0)
  {
    var page := Partial(listing, pins, cursor);
    page.data + if page.next.None? then [] else Followed(listing, pins, page.next)
  }

  lemma {:induction false} LaterPages(listing: seq<Thread>, pins: set<string>, start: nat)
    requires start <= |listing|
    ensures Followed(listing, pins, Some(start)) == Unpinned(Here(listing[start..]), pins)
    decreases |listing| - start
  {
    var end := PageEnd(listing, start, PAGE_LIMIT);
    RestSplit(listing, pins, start, end);
    hide Filter, Here, Unpinned;
    if end < |listing| {
      LaterPages(listing, pins, end);
    }
  }

  lemma RestSplit(listing: seq<Thread>, pins: set<string>, start: nat, end: nat)
    requires start <= end <= |listing|
    ensures Unpinned(Here(listing[start..]), pins)
      == Unpinned(Here(listing[start..end]), pins) + Unpinned(Here(listing[end..]), pins)
    ensures end == |listing| ==> Unpinned(Here(listing[end..]), pins) == []
  {
    assert end == |listing| ==> Here(listing[end..]) == [];
    hide Here;
    HereSplit(listing, start, end, |listing|);
    assert listing[start..|listing|] == listing[start..] && listing[end..|listing|] == listing[end..];
    FilterConcat(Here(listing[start..end]), Here(listing[end..]), Unless(IsPinned(pins)));
  }

  /** The pages together are the stable partition of the listing: every pin in its order, then every other thread. */
  lemma FollowedIsPartition(listing: seq<Thread>, pins: set<string>)
    ensures Followed(listing, pins, None) == Pinned(Here(listing), pins) + Unpinned(Here(listing), pins)
    ensures Followed(listing, pins, None) == StableSort(Here(listing), PinsFirst(pins))
    ensures multiset(Followed(listing, pins, None)) == multiset(Here(listing))
  {
    var end := PageEnd(listing, 0, PAGE_LIMIT);
    SortPinsFirst(Here(listing), pins);
    SortPermutes(Here(listing), PinsFirst(pins));
    hide Filter, Here, Unpinned, StableSort, Pinned;
    RestSplit(listing, pins, 0, end);
    assert listing[0..] == listing;
    if end < |listing| {
      LaterPages(listing, pins, end);
    }
    FollowedFirst(listing, pins, end, Unpinned(Here(listing[end..]), pins));
  }

  lemma FollowedFirst(listing: seq<Thread>, pins: set<string>, end: nat, rest: seq<Thread>)
    requires end == PageEnd(listing, 0, PAGE_LIMIT)
    requires rest == if end < |listing| then Followed(listing, pins, Some(end)) else []
    ensures Followed(listing, pins, None) == Pinned(Here(listing), pins) + (Unpinned(Here(listing[0..end]), pins) + rest)
  {
  }
}
