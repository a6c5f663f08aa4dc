/** What the parts of a merged audit page mean for whoever reads it: whether a page follows, which
    items match, what the cache keeps, and how requests and answers are read. */
module AuditExact {
  import opened Prelude
  import opened Audit
  import opened AuditSources
  import opened AuditFetch

  lemma {:induction false} InsertLength(sorted: seq<Item>, x: Item)
    ensures |Insert(sorted, x)| == |sorted| + 1
  {
    if |sorted| > 0 && sorted[|sorted| - 1].time < x.time {
      InsertLength(sorted[..|sorted| - 1], x);
    }
  }

  lemma {:induction false} SortedKeepsLength(items: seq<Item>)
    ensures |Sorted(items)| == |items|
  {
    if |items| > 0 {
      SortedKeepsLength(items[..|items| - 1]);
      InsertLength(Sorted(items[..|items| - 1]), items[|items| - 1]);
    }
  }

  /** The page of these items, in their order, that begins at place `from`. */
  predicate IsPage(p: Page, all: seq<Item>, total: int, from: nat, pageSize: nat) {
    && p.total == total && (p.hasNext <==> from + pageSize < total)
    && |p.items| == Max(0, Min(pageSize, |all| - from))
    && forall i :: 0 <= i < |p.items| ==> p.items[i] == all[from + i]
  }

  lemma SliceIs(all: seq<Item>, total: int, from: nat, pageSize: nat)
    ensures IsPage(Page(Slice(all, from, from + pageSize), total, from + pageSize < total), all, total, from, pageSize)
  {
  }

  lemma PageIs(a: seq<Item>, b: seq<Item>, total: nat, page: nat, pageSize: nat)
    requires page > 0
    ensures (page - 1) * pageSize >= 0
    ensures IsPage(PageOf(a, b, total, page, pageSize), Sorted(a + b), total, (page - 1) * pageSize, pageSize)
  {
    Product(page - 1, page, pageSize);
    var from := (page - 1) * pageSize;
    assert page * pageSize == from + pageSize;
    SliceIs(Sorted(a + b), total, from, pageSize);
  }

  /** A page of the complete lists has the items at its places of both lists sorted together, and
      says that there is a next page exactly when that has items. */
  lemma NextPageIff(site: Site, query: string, app: Source, sys: Source, page: nat, pageSize: nat)
    requires page > 0 && pageSize > 0
    ensures var here, next := Complete(site, query, app, sys, page, pageSize),
                              Complete(site, query, app, sys, page + 1, pageSize);
      var all := Sorted(Application(site, app, query) + sys(query));
      && |all| == |Application(site, app, query)| + |sys(query)|
      && (page - 1) * pageSize >= 0 && IsPage(here, all, |all|, (page - 1) * pageSize, pageSize)
      && (here.hasNext <==> |next.items| > 0)
  {
    var a, b := Application(site, app, query), sys(query);
    SortedKeepsLength(a + b);
    PageIs(a, b, |a| + |b|, page, pageSize);
    PageIs(a, b, |a| + |b|, page + 1, pageSize);
    assert page * pageSize == (page - 1) * pageSize + pageSize;
  }

  /** A fetch with two answers gives the page of both together, with one that of this one alone,
      and with none it fails. */
  lemma CombinedIs(r: Option<Page>, a: Option<Batch>, b: Option<Batch>, page: nat, pageSize: nat)
    requires page > 0 && Combines(r, a, b, page, pageSize)
    ensures (page - 1) * pageSize >= 0
    ensures a.None? && b.None? <==> r.None?
    ensures a.Some? && b.Some? ==>
      IsPage(r.value, Sorted(a.value.items + b.value.items), a.value.total + b.value.total, (page - 1) * pageSize,
             pageSize)
    ensures a.Some? && b.None? ==>
      IsPage(r.value, Sorted(a.value.items), a.value.total, (page - 1) * pageSize, pageSize)
    ensures a.None? && b.Some? ==>
      IsPage(r.value, Sorted(b.value.items), b.value.total, (page - 1) * pageSize, pageSize)
  {
    var x, y := Loaded(a), Loaded(b);
    PageIs(x.items, y.items, x.total + y.total, page, pageSize);
    if b.None? {
      assert x.items + y.items == x.items;
    } else if a.None? {
      assert x.items + y.items == y.items;
    }
  }

  lemma FilteredSnoc(front: seq<Item>, last: Item, matches: Matcher, query: string)
    ensures Filtered(front + [last], matches, query) ==
      if matches(query, last) then Filtered(front, matches, query) + [last] else Filtered(front, matches, query)
  {
    assert (front + [last])[..|front|] == front;
  }

  /** The matching items are those at the places where an item matches, in their order. */
  lemma {:induction false} FilterKeepsOrder(items: seq<Item>, matches: Matcher, query: string, matching: Item -> bool)
    returns (places: seq<nat>)
    requires forall x :: matching(x) == matches(query, x)
    ensures Picks(items, matching, places, Filtered(items, matches, query))
  {
    if |items| == 0 {
      places := [];
      PicksNone(items, matching, places, Filtered(items, matches, query));
    } else {
      var front, last := items[..|items| - 1], items[|items| - 1];
      var before := FilterKeepsOrder(front, matches, query, matching);
      assert items == front + [last];
      FilteredSnoc(front, last, matches, query);
      PicksSnoc(front, last, matching, before, Filtered(front, matches, query));
      places := if matches(query, last) then before + [|front|] else before;
    }
  }

  /** The application's items are all the source has, or those that match where the console filters. */
  lemma ApplicationIs(site: Site, source: Source, query: string, matching: Item -> bool) returns (places: seq<nat>)
    requires forall x :: matching(x) == site.matches(query, x)
    ensures !site.onClient(query) ==> Application(site, source, query) == source(query)
    ensures site.onClient(query) ==> Picks(source(query), matching, places, Application(site, source, query))
  {
    places := FilterKeepsOrder(source(query), site.matches, query, matching);
  }

  /** Of the cache's keys the last 24 are kept. */
  lemma NewestAreKept(keys: seq<Key>)
    ensures |Newer(keys)| == Min(|keys|, 24)
    ensures forall i :: 0 <= i < |Newer(keys)| ==> Newer(keys)[i] == keys[|keys| - |Newer(keys)| + i]
  {
  }

  /** A page number or size as it is asked for, but at least one. */
  lemma AtLeastOneIs(n: Option<int>, default: nat)
    requires default > 0
    ensures n.Some? && n.value > 0 ==> AtLeastOne(n, default) == n.value
    ensures n.Some? && n.value <= 0 ==> AtLeastOne(n, default) == 1
    ensures n.None? ==> AtLeastOne(n, default) == default
  {
  }

  /** An answer is taken at its word; without a total it is taken to be all there is, and without
      has_next there is more exactly when the total is past the page. */
  lemma AnswerIsRead(r: Reply, n: nat, size: nat)
    requires r.Reply?
    ensures var b := ReadReply(r, n, size);
      && b.items == r.items
      && (r.total.Some? ==> b.total == r.total.value) && (r.total.None? ==> b.total == |r.items|)
      && (r.hasNext.Some? ==> b.hasNext == r.hasNext.value) && (r.hasNext.None? ==> (b.hasNext <==> b.total > n * size))
  {
  }
}
