/** Following `next_cursor` through a store that keeps changing. */
module MediaPaging {
  import opened Options
  import opened Media
  import opened MediaSafety
  import opened MediaTheorems
  import opened Runs

  // ----- How the list evolves -----

  /** The id names something other than the clip being recorded. */
  predicate Taken(s: System, id: Id) {
    id in s.used && !(s.worker.Some? && s.worker.value.mediaId == id)
  }

  /** Later, listed items are old ones or newer than all old ones, under ids of their own. */
  ghost predicate Evolves(s: System, r: System) {
    && s.store.nextOrdinal <= r.store.nextOrdinal
    && (forall id :: Taken(s, id) ==> Taken(r, id))
    && (forall x :: x in r.store.items ==>
          x in s.store.items || (s.store.nextOrdinal <= x.ordinal && !Taken(s, x.id)))
  }

  lemma RetainOnlyRemoves(s: Store, r: Readings)
    ensures forall x :: x in Retain(s, r, 0).items ==> x in s.items
  {
    RetentionIsShortest(s, r, 0);
  }

  lemma SnapshotEvolves(s: System, q: SnapshotInputs)
    requires Inv(s) && SnapshotDrawn(s, q)
    ensures Evolves(s, Apply(s, TakeSnapshot(q)))
  {
    var (t, guard) := SnapshotGuard(s.store, q);
    RetainOnlyRemoves(s.store, q.first);
    if guard == Done && q.frame.Some? && q.written.Committed? {
      var item := SnapshotItem(t, q.frame.value, q.id, q.at, q.createdMs);
      var added := Added(t.(nextOrdinal := t.nextOrdinal + 1), item, SnapshotDirectory(item, q.written.manifestBytes));
      RetainOnlyRemoves(Refreshed(added, q.after), q.last);
      assert forall x :: x in added.items ==> x in t.items || x.id == q.id;
    }
  }

  lemma SettledOnlyRemoves(s: Store, free: Option<nat>, r: Readings)
    ensures Settled(s, free, r).nextOrdinal == s.nextOrdinal
    ensures forall x :: x in Settled(s, free, r).items ==> x in s.items
  {
    RetainOnlyRemoves(Refreshed(s, free), r);
  }

  lemma CommitEvolves(s: Store, w: Worker, at: string, written: Written, after: Option<nat>, last: Readings)
    requires w.fps > 0
    ensures var t := Commit(s, w, at, written, after, last).0;
      t.nextOrdinal == s.nextOrdinal + 1
      && forall x :: x in t.items ==> x in s.items || (x.id == w.mediaId && x.ordinal == s.nextOrdinal)
  {
    if written.Committed? {
      var item := ClipItem(s, w, at);
      var added := Added(s.(nextOrdinal := s.nextOrdinal + 1), item, ClipDirectory(PartialOf(s, w), item, written.manifestBytes));
      SettledOnlyRemoves(added, after, last);
      assert forall x :: x in added.items ==> x in s.items || (x.id == w.mediaId && x.ordinal == s.nextOrdinal);
    }
  }

  lemma PublishEvolves(s: System, at: string, written: Written, after: Option<nat>, last: Readings)
    requires Inv(s) && Enabled(s, WorkerPublishes(at, written, after, last))
    ensures Evolves(s, Apply(s, WorkerPublishes(at, written, after, last)))
  {
    CommitEvolves(s.store, s.worker.value, at, written, after, last);
    SettledOnlyRemoves(s.store, after, last);
  }

  lemma RequestEvolves(s: System, c: ClipInputs)
    requires Inv(s) && Enabled(s, RequestClip(c))
    ensures Evolves(s, Apply(s, RequestClip(c)))
  {
    RetainOnlyRemoves(s.store, c.first);
  }

  lemma StepEvolves(s: System, step: Step)
    requires Inv(s) && Enabled(s, step)
    requires !step.PowerLoss? && !step.PowerLossInSnapshot? && !step.PowerLossInPublish?
    ensures Evolves(s, Apply(s, step))
  {
    if step.TakeSnapshot? {
      SnapshotEvolves(s, step.q);
    } else if step.RequestClip? {
      RequestEvolves(s, step.c);
    } else if step.WorkerPublishes? {
      PublishEvolves(s, step.at, step.written, step.after, step.last);
    }
  }

  lemma EvolvesOn(s: System)
    ensures Inductive(NextPowered, r => Inv(r) && Evolves(s, r))
  {
    forall m, r | Inv(m) && Evolves(s, m) && NextPowered(m, r) ensures Inv(r) && Evolves(s, r) {
      var step :| Enabled(m, step) && r == Apply(m, step)
        && !step.PowerLoss? && !step.PowerLossInSnapshot? && !step.PowerLossInPublish?;
      StepKeeps(m, step);
      StepEvolves(m, step);
    }
  }

  lemma RunEvolves(s: System, r: System)
    requires Inv(s) && Follows(NextPowered, s, r)
    ensures Inv(r) && Evolves(s, r)
  {
    EvolvesOn(s);
    FollowsKeeps(NextPowered, t => Inv(t) && Evolves(s, t), s, r);
  }

  // ----- One page -----

  ghost predicate Descending(items: seq<Item>) {
    forall i, j :: 0 <= i < j < |items| ==> items[i].ordinal > items[j].ordinal
  }

  predicate Below(x: Item, bound: Option<nat>) { bound.Some? ==> x.ordinal < bound.value }

  predicate NotPast(x: Item, page: seq<Item>, next: Option<Id>) {
    next.Some? && page != [] ==> page[|page| - 1].ordinal <= x.ordinal
  }

  /** The page covers the items from its bound (a cursor's number, if any) down to its last
      one, or down to the oldest item if there is no next cursor. */
  ghost predicate Covers(items: seq<Item>, bound: Option<nat>, page: seq<Item>, next: Option<Id>) {
    && Descending(page)
    && (forall x :: x in page ==> x in items && Below(x, bound))
    && (next.Some? ==> page != [] && page[|page| - 1].id == next.value)
    && (forall x :: x in items && Below(x, bound) && NotPast(x, page, next) ==> x in page)
  }

  lemma SliceHolds(newest: seq<Item>, start: nat, end: nat, bound: Option<nat>, x: Item)
    requires Descending(newest) && start <= end <= |newest|
    requires if bound.Some? then 0 < start && newest[start - 1].ordinal == bound.value else start == 0
    requires x in newest && Below(x, bound) && (end < |newest| ==> start < end && newest[end - 1].ordinal <= x.ordinal)
    ensures x in newest[start..end]
  {
    var k :| 0 <= k < |newest| && newest[k] == x;
    assert start <= k < end;
    assert newest[start..end][k - start] == x;
  }

  lemma SliceWithin(newest: seq<Item>, start: nat, end: nat, bound: Option<nat>, x: Item)
    requires Descending(newest) && start <= end <= |newest| && x in newest[start..end]
    requires if bound.Some? then 0 < start && newest[start - 1].ordinal == bound.value else start == 0
    ensures x in newest && Below(x, bound)
  {
    var k :| 0 <= k < end - start && newest[start..end][k] == x;
    assert newest[start + k] == x;
  }

  lemma SliceCovers(newest: seq<Item>, start: nat, end: nat, bound: Option<nat>, next: Option<Id>)
    requires Descending(newest) && start <= end <= |newest| && (start < end || end == |newest|)
    requires if bound.Some? then 0 < start && newest[start - 1].ordinal == bound.value else start == 0
    requires next == if start < end < |newest| then Some(newest[end - 1].id) else None
    ensures Covers(newest, bound, newest[start..end], next)
  {
    var page := newest[start..end];
    forall x | x in newest && Below(x, bound) && NotPast(x, page, next) ensures x in page {
      SliceHolds(newest, start, end, bound, x);
    }
    forall x | x in page ensures x in newest && Below(x, bound) {
      SliceWithin(newest, start, end, bound, x);
    }
  }

  lemma NewestDescends(items: seq<Item>)
    requires Ascending(items)
    ensures Descending(Newest(items))
    ensures forall x :: x in Newest(items) <==> x in items
  {
    var newest := Newest(items);
    forall x ensures x in newest <==> x in items {
      if x in items {
        var i :| 0 <= i < |items| && items[i] == x;
        assert newest[|items| - 1 - i] == x;
      }
    }
  }

  /** The cursor's item is found where it stands. */
  lemma CursorFound(items: seq<Item>, nextOrdinal: nat, c: Item)
    requires ItemsOk(items, nextOrdinal) && c in items
    ensures FindItem(Newest(items), c.id) < |items| && Newest(items)[FindItem(Newest(items), c.id)] == c
  {
    var newest := Newest(items);
    var i :| 0 <= i < |items| && items[i] == c;
    assert newest[|items| - 1 - i] == c;
    var k := FindItem(newest, c.id);
    assert newest[k] == items[|items| - 1 - k];
  }

  lemma PageFromCovers(newest: seq<Item>, start: nat, limit: nat, bound: Option<nat>)
    requires Descending(newest) && start <= |newest|
    requires if bound.Some? then 0 < start && newest[start - 1].ordinal == bound.value else start == 0
    ensures Covers(newest, bound, PageFrom(newest, start, limit).0, PageFrom(newest, start, limit).1)
  {
    var end := Min(|newest|, start + Max(1, Min(limit, MAX_MEDIA_PAGE)));
    SliceCovers(newest, start, end, bound, PageFrom(newest, start, limit).1);
  }

  lemma CoversList(items: seq<Item>, bound: Option<nat>, page: seq<Item>, next: Option<Id>)
    requires Ascending(items) && Covers(Newest(items), bound, page, next)
    ensures Covers(items, bound, page, next)
  {
    NewestDescends(items);
  }

  lemma PageCovers(items: seq<Item>, start: nat, limit: nat, bound: Option<nat>, page: seq<Item>, next: Option<Id>)
    requires Ascending(items) && start <= |items| && (page, next) == PageFrom(Newest(items), start, limit)
    requires if bound.Some? then 0 < start && Newest(items)[start - 1].ordinal == bound.value else start == 0
    ensures Covers(items, bound, page, next)
  {
    NewestDescends(items);
    PageFromCovers(Newest(items), start, limit, bound);
    CoversList(items, bound, page, next);
  }

  lemma FirstPageCovers(items: seq<Item>, limit: nat)
    requires Ascending(items)
    ensures Covers(items, None, Page(items, None, limit).0, Page(items, None, limit).1)
  {
    PageCovers(items, 0, limit, None, Page(items, None, limit).0, Page(items, None, limit).1);
  }

  lemma NextPageCovers(items: seq<Item>, nextOrdinal: nat, c: Item, limit: nat)
    requires ItemsOk(items, nextOrdinal) && c in items
    ensures Covers(items, Some(c.ordinal), Page(items, Some(c.id), limit).0, Page(items, Some(c.id), limit).1)
  {
    CursorFound(items, nextOrdinal, c);
    var (page, next) := Page(items, Some(c.id), limit);
    PageCovers(items, FindItem(Newest(items), c.id) + 1, limit, Some(c.ordinal), page, next);
  }

  // ----- Traversal -----

  /** The page requests of one traversal: the store at each, and the limit asked for. */
  datatype Visit = Visit(at: System, limit: nat)

  function CursorAt(visits: seq<Visit>, i: nat): Option<Id>
    requires i <= |visits|
  {
    if i == 0 then None
    else Page(visits[i - 1].at.store.items, CursorAt(visits, i - 1), visits[i - 1].limit).1
  }

  function PageAt(visits: seq<Visit>, i: nat): seq<Item>
    requires i < |visits|
  {
    Page(visits[i].at.store.items, CursorAt(visits, i), visits[i].limit).0
  }

  function Pages(visits: seq<Visit>, n: nat): seq<Item>
    requires n <= |visits|
  {
    if n == 0 then [] else Pages(visits, n - 1) + PageAt(visits, n - 1)
  }

  /** The store runs on between requests; a cursor's item is still there when it is used. */
  ghost predicate Traversal(visits: seq<Visit>) {
    && |visits| > 0 && Reachable(visits[0].at)
    && (forall i :: 0 < i < |visits| ==> Follows(NextPowered, visits[i - 1].at, visits[i].at))
    && (forall i :: 0 < i < |visits| ==>
          CursorAt(visits, i).Some? && Lists(visits[i].at.store.items, CursorAt(visits, i).value))
  }

  lemma {:induction false} VisitsEvolve(visits: seq<Visit>, i: nat)
    requires Traversal(visits) && i < |visits|
    ensures Inv(visits[i].at)
    ensures i > 0 ==> Inv(visits[i - 1].at) && Evolves(visits[i - 1].at, visits[i].at)
  {
    if i == 0 {
      ReachableInv(visits[0].at);
    } else {
      VisitsEvolve(visits, i - 1);
      RunEvolves(visits[i - 1].at, visits[i].at);
    }
  }

  ghost predicate LiveThrough(visits: seq<Visit>, n: nat, x: Item)
    requires n <= |visits|
  {
    forall i :: 0 <= i < n ==> x in visits[i].at.store.items
  }

  /** Delivered items descend from below the first new number; the cursor names the last. */
  ghost predicate Ordered(all: seq<Item>, first: nat, cursor: Option<Id>, items: seq<Item>) {
    && Descending(all)
    && (forall x :: x in all ==> x.ordinal < first)
    && (cursor.Some? ==> all != [] && all[|all| - 1].id == cursor.value && all[|all| - 1] in items)
  }

  /** Of the items listed at the first `n` requests, none has been passed over. */
  ghost predicate NoneMissed(visits: seq<Visit>, n: nat, all: seq<Item>, cursor: Option<Id>)
    requires n <= |visits|
  {
    forall x :: LiveThrough(visits, n, x) && NotPast(x, all, cursor) ==> x in all
  }

  /** What `n` pages have delivered. */
  ghost predicate Delivered(visits: seq<Visit>, n: nat)
    requires 0 < n <= |visits|
  {
    && Ordered(Pages(visits, n), visits[0].at.store.nextOrdinal, CursorAt(visits, n), visits[n - 1].at.store.items)
    && NoneMissed(visits, n, Pages(visits, n), CursorAt(visits, n))
  }

  /** The item a cursor names is the one delivered last. */
  lemma CursorKeepsItsItem(s: System, r: System, c: Item)
    requires Inv(s) && Inv(r) && Evolves(s, r) && c in s.store.items && Lists(r.store.items, c.id)
    ensures c in r.store.items
  {
    var j :| 0 <= j < |r.store.items| && r.store.items[j].id == c.id;
    var x := r.store.items[j];
    assert x in r.store.items;
    var i :| 0 <= i < |s.store.items| && s.store.items[i] == c;
    assert Shelved(c, s.store.card);
    assert Taken(s, c.id);
    if x in s.store.items {
      var k :| 0 <= k < |s.store.items| && s.store.items[k] == x;
      assert k == i;
    }
  }

  lemma CoveredIsDelivered(visits: seq<Visit>, page: seq<Item>, next: Option<Id>)
    requires |visits| > 0 && Inv(visits[0].at) && Covers(visits[0].at.store.items, None, page, next)
    ensures Ordered(page, visits[0].at.store.nextOrdinal, next, visits[0].at.store.items)
    ensures NoneMissed(visits, 1, page, next)
  {
    forall x | LiveThrough(visits, 1, x) && NotPast(x, page, next) ensures x in page {
      assert x in visits[0].at.store.items;
    }
  }

  lemma FirstPage(visits: seq<Visit>)
    requires |visits| > 0 && Inv(visits[0].at)
    ensures Delivered(visits, 1)
  {
    var s := visits[0].at.store;
    FirstPageCovers(s.items, visits[0].limit);
    CoveredIsDelivered(visits, PageAt(visits, 0), CursorAt(visits, 1));
    assert Pages(visits, 0) == [];
    assert Pages(visits, 1) == PageAt(visits, 0);
  }

  /** A page that covers what lies below the last item extends what was delivered. */
  lemma Joins(before: seq<Item>, items: seq<Item>, page: seq<Item>, next: Option<Id>)
    requires Descending(before) && before != []
    requires Covers(items, Some(before[|before| - 1].ordinal), page, next)
    ensures Descending(before + page)
    ensures next.Some? ==> (before + page)[|before + page| - 1] == page[|page| - 1]
    ensures forall x :: x in items && before[|before| - 1].ordinal > x.ordinal && NotPast(x, before + page, next) ==>
      x in before + page
  {
    var all := before + page;
    forall i, j | 0 <= i < j < |all| ensures all[i].ordinal > all[j].ordinal {
      if i < |before| <= j {
        assert all[j] == page[j - |before|];
        assert page[j - |before|] in page;
        assert before[i].ordinal >= before[|before| - 1].ordinal;
      }
    }
  }

  lemma MissesNone(visits: seq<Visit>, n: nat, before: seq<Item>, page: seq<Item>, next: Option<Id>)
    requires 0 < n < |visits| && before != [] && Descending(before)
    requires NoneMissed(visits, n, before, Some(before[|before| - 1].id))
    requires Covers(visits[n].at.store.items, Some(before[|before| - 1].ordinal), page, next)
    ensures NoneMissed(visits, n + 1, before + page, next)
  {
    Joins(before, visits[n].at.store.items, page, next);
    forall x | LiveThrough(visits, n + 1, x) && NotPast(x, before + page, next) ensures x in before + page {
      assert LiveThrough(visits, n, x);
      assert x in visits[n].at.store.items;
    }
  }

  lemma Extends(visits: seq<Visit>, n: nat, before: seq<Item>, c: Item, page: seq<Item>, next: Option<Id>)
    requires 0 < n < |visits| && before != [] && before[|before| - 1] == c
    requires Ordered(before, visits[0].at.store.nextOrdinal, Some(c.id), visits[n - 1].at.store.items)
    requires NoneMissed(visits, n, before, Some(c.id))
    requires Covers(visits[n].at.store.items, Some(c.ordinal), page, next)
    ensures Ordered(before + page, visits[0].at.store.nextOrdinal, next, visits[n].at.store.items)
    ensures NoneMissed(visits, n + 1, before + page, next)
  {
    MissesNone(visits, n, before, page, next);
    Joins(before, visits[n].at.store.items, page, next);
    assert c in before;
  }

  lemma PageBelowCursor(s: System, r: System, c: Item, limit: nat)
    requires Inv(s) && Inv(r) && Evolves(s, r) && c in s.store.items && Lists(r.store.items, c.id)
    ensures Covers(r.store.items, Some(c.ordinal), Page(r.store.items, Some(c.id), limit).0, Page(r.store.items, Some(c.id), limit).1)
  {
    CursorKeepsItsItem(s, r, c);
    NextPageCovers(r.store.items, r.store.nextOrdinal, c, limit);
  }

  lemma NextPage(visits: seq<Visit>, n: nat, c: Item)
    requires 0 < n < |visits| && Delivered(visits, n) && CursorAt(visits, n) == Some(c.id)
    requires Pages(visits, n) != [] && Pages(visits, n)[|Pages(visits, n)| - 1] == c
    requires Covers(visits[n].at.store.items, Some(c.ordinal), PageAt(visits, n), CursorAt(visits, n + 1))
    ensures Delivered(visits, n + 1)
  {
    Extends(visits, n, Pages(visits, n), c, PageAt(visits, n), CursorAt(visits, n + 1));
  }

  lemma VisitCovers(visits: seq<Visit>, n: nat, c: Item)
    requires Traversal(visits) && 0 < n < |visits|
    requires c in visits[n - 1].at.store.items && CursorAt(visits, n) == Some(c.id)
    ensures Covers(visits[n].at.store.items, Some(c.ordinal), PageAt(visits, n), CursorAt(visits, n + 1))
  {
    VisitsEvolve(visits, n);
    PageBelowCursor(visits[n - 1].at, visits[n].at, c, visits[n].limit);
  }

  lemma FirstVisit(visits: seq<Visit>)
    requires Traversal(visits)
    ensures Delivered(visits, 1)
  {
    VisitsEvolve(visits, 0);
    FirstPage(visits);
  }

  lemma {:induction false} PagesDeliver(visits: seq<Visit>, n: nat)
    requires Traversal(visits) && 0 < n <= |visits|
    ensures Delivered(visits, n)
  {
    if n == 1 {
      FirstVisit(visits);
    } else {
      PagesDeliver(visits, n - 1);
      var before := Pages(visits, n - 1);
      var c := before[|before| - 1];
      VisitCovers(visits, n - 1, c);
      NextPage(visits, n - 1, c);
    }
  }

  /** A traversal followed to its end delivers items newest first, none twice, none newer
      than its start, and every item that was listed throughout -- whatever was stored or
      deleted in between, as long as no cursor's item was. */
  lemma TraversalIsComplete(visits: seq<Visit>)
    requires Traversal(visits) && CursorAt(visits, |visits|).None?
    ensures var all := Pages(visits, |visits|);
      && Descending(all)
      && (forall x :: x in all ==> x.ordinal < visits[0].at.store.nextOrdinal)
      && (forall x :: LiveThrough(visits, |visits|, x) ==> x in all)
  {
    PagesDeliver(visits, |visits|);
  }

  /** The condition on cursors is needed: once its item is gone, the traversal ends with
      an empty page whatever is still listed. */
  lemma DeletedCursorEndsTheTraversal(items: seq<Item>, id: Id, limit: nat)
    requires !Lists(items, id)
    ensures Page(items, Some(id), limit) == ([], None)
  {
    var newest := Newest(items);
    var k := FindItem(newest, id);
    assert k < |newest| ==> newest[k].id == id && Lists(items, id);
  }
}
