/** Fetching a merged audit page, directly and through the caches, from servers that cap what
    one request is answered with: what each fetch has of the two sources when it merges them. */
module AuditFetch {
  import opened Prelude
  import opened Audit
  import opened AuditSources

  /** The complete list behind each query. */
  type Source = string -> seq<Item>

  /** The first `loadedPages` pages of `rows` items, with the total and whether it goes on. */
  ghost predicate Grown(source: seq<Item>, rows: nat, e: Entry) {
    && e.items == Prefix(source, e.loadedPages * rows)
    && (e.loadedPages > 0 ==> e.total == |source| && e.hasNext == (e.loadedPages * rows < |source|))
  }

  ghost predicate Faithful(entries: map<Key, Entry>, source: Source, cap: nat)
    requires cap > 0
  {
    forall k :: k in entries ==>
      k.pageSize > 0 && entries[k].loadedPages > 0 && Grown(source(k.query), Rows(k.pageSize, cap), entries[k])
  }

  lemma SetKeepsFaithful(before: map<Key, Entry>, after: map<Key, Entry>, source: Source, cap: nat, key: Key,
                         entry: Entry)
    requires cap > 0 && key.pageSize > 0 && entry.loadedPages > 0
    requires Faithful(before, source, cap) && Grown(source(key.query), Rows(key.pageSize, cap), entry)
    requires key in after && after[key] == entry
    requires forall k :: k in after && k != key ==> k in before && after[k] == before[k]
    ensures Faithful(after, source, cap)
  {
  }

  lemma PageGrows(source: seq<Item>, rows: nat, e: Entry, b: Batch)
    requires Grown(source, rows, e)
    requires b == Batch(Window(source, e.loadedPages + 1, rows), |source|, (e.loadedPages + 1) * rows < |source|)
    ensures Grown(source, rows, Entry(e.items + b.items, b.total, b.hasNext, e.loadedPages + 1))
  {
    WindowExtends(source, e.loadedPages, rows);
  }

  ghost predicate AlwaysAnswers(api: Api, query: string) {
    forall n: nat, size: nat :: n > 0 && size > 0 ==> api(query, n, size).Reply?
  }

  lemma ReplyIsWindow(api: Api, query: string, source: seq<Item>, cap: nat, n: nat, size: nat)
    requires cap > 0 && size > 0 && Serves(api, query, source, cap) && n > 0 && api(query, n, size).Reply?
    ensures ReadReply(api(query, n, size), n, size)
      == Batch(Window(source, n, Rows(size, cap)), |source|, n * Rows(size, cap) < |source|)
  {
  }

  /** One page more. */
  lemma NextPage(api: Api, query: string, source: seq<Item>, cap: nat, size: nat, e: Entry)
    requires cap > 0 && size > 0 && Serves(api, query, source, cap) && Grown(source, Rows(size, cap), e)
    requires api(query, e.loadedPages + 1, size).Reply?
    ensures var b := ReadReply(api(query, e.loadedPages + 1, size), e.loadedPages + 1, size);
      Grown(source, Rows(size, cap), Entry(e.items + b.items, b.total, b.hasNext, e.loadedPages + 1))
  {
    var n := e.loadedPages + 1;
    ReplyIsWindow(api, query, source, cap, n, size);
    PageGrows(source, Rows(size, cap), e, ReadReply(api(query, n, size), n, size));
  }

  /** How many pages the cache holds of a query. */
  function Loads(entries: map<Key, Entry>, key: Key): nat {
    if key in entries then entries[key].loadedPages else 0
  }

  lemma HeldIsGrown(entries: map<Key, Entry>, source: Source, cap: nat, key: Key)
    requires cap > 0 && key.pageSize > 0 && Faithful(entries, source, cap)
    ensures Grown(source(key.query), Rows(key.pageSize, cap),
                  if key in entries then entries[key] else Entry([], 0, true, 0))
  {
    Product(0, 0, Rows(key.pageSize, cap));
  }

  /** How far into its list a fetch of this page reads the API, if `loaded` pages were cached. */
  function ApiReach(cap: nat, page: nat, pageSize: nat, loaded: nat): (n: nat)
    requires cap > 0 && pageSize > 0
  {
    Product(0, Max(page, loaded), Rows(pageSize, cap));
    Max(page, loaded) * Rows(pageSize, cap)
  }

  /** What is loaded when the loop ends: as many pages as wanted, or as were loaded before. */
  lemma GrownToPage(source: seq<Item>, cap: nat, page: nat, pageSize: nat, loaded: nat, e: Entry)
    requires cap > 0 && pageSize > 0 && 0 < page && loaded <= e.loadedPages <= Max(page, loaded)
    requires Grown(source, Rows(pageSize, cap), e) && (e.loadedPages >= page || (e.loadedPages > 0 && !e.hasNext))
    ensures e.items == Prefix(source, ApiReach(cap, page, pageSize, loaded)) && e.total == |source|
  {
    if e.loadedPages < page {
      Product(e.loadedPages, page, Rows(pageSize, cap));
    }
  }

  /** And the log query, if `widened` were. */
  function HitReach(cap: nat, page: nat, pageSize: nat, widened: nat): (n: nat) {
    Product(0, Max(page, widened), pageSize);
    Min(Max(page, widened) * pageSize, cap)
  }

  /** One page after another, kept in the cache, until the wanted one is loaded or there are
      no more. None when a request fails; what was loaded before stays cached. */
  method FetchPages(cache: SourceCache, api: Api, query: string, page: nat, pageSize: nat, ghost source: Source,
                    ghost cap: nat)
    returns (r: Option<Batch>)
    requires page > 0 && pageSize > 0 && cap > 0
    requires cache.Valid() && Faithful(cache.entries, source, cap) && Serves(api, query, source(query), cap)
    modifies cache
    ensures cache.Valid() && Faithful(cache.entries, source, cap)
    ensures r.Some? ==>
      && r.value.items ==
           Prefix(source(query), ApiReach(cap, page, pageSize, Loads(old(cache.entries), Key(query, pageSize))))
      && r.value.total == |source(query)|
    ensures AlwaysAnswers(api, query) ==> r.Some?
  {
    var key := Key(query, pageSize);
    ghost var loaded := Loads(cache.entries, key);
    HeldIsGrown(cache.entries, source, cap, key);
    var cached := cache.Touch(key);
    var entry := if cached.Some? then cached.value else Entry([], 0, true, 0);
    while entry.loadedPages < page && (entry.loadedPages == 0 || entry.hasNext)
      invariant cache.Valid() && Faithful(cache.entries, source, cap)
      invariant Grown(source(query), Rows(pageSize, cap), entry)
      invariant loaded <= entry.loadedPages <= Max(page, loaded)
    {
      var next := entry.loadedPages + 1;
      var reply := api(query, next, pageSize);
      if reply.Failed? {
        return None;
      }
      var batch := ReadReply(reply, next, pageSize);
      NextPage(api, query, source(query), cap, pageSize, entry);
      entry := Entry(entry.items + batch.items, batch.total, batch.hasNext, next);
      ghost var before := cache.entries;
      cache.Set(key, entry);
      SetKeepsFaithful(before, cache.entries, source, cap, key, entry);
      if !batch.hasNext {
        break;
      }
    }
    GrownToPage(source(query), cap, page, pageSize, loaded, entry);
    r := Some(Batch(entry.items, entry.total, entry.hasNext));
  }

  ghost predicate AlwaysHits(pipeline: Pipeline, query: string) {
    forall size: nat :: size > 0 ==> pipeline(query, size).Hits?
  }

  /** The first items, as many as the last answer gave for the pages asked for. */
  ghost predicate Widened(source: seq<Item>, size: nat, limits: Limits, e: Entry) {
    && e.items == Prefix(source, Min(e.loadedPages * size, limits.hitRows))
    && (e.loadedPages > 0 ==>
          e.total == Min(|source|, limits.counted) && e.hasNext == (e.total > e.loadedPages * size))
  }

  ghost predicate Wide(entries: map<Key, Entry>, source: Source, limits: Limits) {
    forall k :: k in entries ==>
      k.pageSize > 0 && entries[k].loadedPages > 0 && Widened(source(k.query), k.pageSize, limits, entries[k])
  }

  lemma SetKeepsWide(before: map<Key, Entry>, after: map<Key, Entry>, source: Source, limits: Limits, key: Key,
                     entry: Entry)
    requires Wide(before, source, limits) && key.pageSize > 0 && entry.loadedPages > 0
    requires Widened(source(key.query), key.pageSize, limits, entry)
    requires key in after && after[key] == entry
    requires forall k :: k in after && k != key ==> k in before && after[k] == before[k]
    ensures Wide(after, source, limits)
  {
  }

  lemma WidenedToPage(source: seq<Item>, size: nat, limits: Limits, e: Entry, page: nat, before: nat)
    requires limits.Sane() && Widened(source, size, limits, e) && 0 < page
    requires before <= e.loadedPages <= Max(page, before)
    requires e.loadedPages >= page || (e.loadedPages > 0 && !e.hasNext)
    ensures e.items == Prefix(source, Min(Max(page, before) * size, limits.hitRows))
    ensures e.total == Min(|source|, limits.counted)
  {
    if e.loadedPages < page {
      Product(e.loadedPages, page, size);
    }
  }

  /** The log query gives only its first page, so each turn asks for a larger one. */
  method FetchWindow(cache: SourceCache, pipeline: Pipeline, query: string, page: nat, pageSize: nat,
                     ghost source: Source, ghost limits: Limits)
    returns (r: Option<Batch>)
    requires page > 0 && pageSize > 0 && limits.Sane()
    requires cache.Valid() && Wide(cache.entries, source, limits) && ServesHits(pipeline, query, source(query), limits)
    modifies cache
    ensures cache.Valid() && Wide(cache.entries, source, limits)
    ensures r.Some? ==>
      && r.value.items ==
           Prefix(source(query),
                  HitReach(limits.hitRows, page, pageSize, Loads(old(cache.entries), Key(query, pageSize))))
      && r.value.total == Min(|source(query)|, limits.counted)
    ensures AlwaysHits(pipeline, query) ==> r.Some?
  {
    var key := Key(query, pageSize);
    var cached := cache.Touch(key);
    var entry := if cached.Some? then cached.value else Entry([], 0, true, 0);
    while entry.loadedPages < page && (entry.loadedPages == 0 || entry.hasNext)
      invariant cache.Valid() && Wide(cache.entries, source, limits)
      invariant Widened(source(query), pageSize, limits, entry)
      invariant Loads(old(cache.entries), key) <= entry.loadedPages <= Max(page, Loads(old(cache.entries), key))
    {
      var next := entry.loadedPages + 1;
      Product(1, next, pageSize);
      var size := next * pageSize;
      var hits := pipeline(query, size);
      if hits.NoHits? {
        return None;
      }
      entry := Entry(hits.items, hits.total, hits.total > size, next);
      ghost var before := cache.entries;
      cache.Set(key, entry);
      SetKeepsWide(before, cache.entries, source, limits, key, entry);
      if !entry.hasNext {
        break;
      }
    }
    WidenedToPage(source(query), pageSize, limits, entry, page, Loads(old(cache.entries), key));
    r := Some(Batch(entry.items, entry.total, page * pageSize < entry.total));
  }

  // ---- Filtering on the client ----

  /** Whether an item matches the user part of a query. */
  type Matcher = (string, Item) -> bool

  function Filtered(items: seq<Item>, matches: Matcher, query: string): (r: seq<Item>) {
    if |items| == 0 then []
    else
      var last := items[|items| - 1];
      Filtered(items[..|items| - 1], matches, query) + if matches(query, last) then [last] else []
  }

  lemma {:induction false} FilteredConcat(a: seq<Item>, b: seq<Item>, matches: Matcher, query: string)
    ensures Filtered(a + b, matches, query) == Filtered(a, matches, query) + Filtered(b, matches, query)
  {
    if |b| == 0 {
      assert a + b == a;
    } else {
      FilteredConcat(a, b[..|b| - 1], matches, query);
      assert (a + b)[..|a| + |b| - 1] == a + b[..|b| - 1];
    }
  }

  lemma {:induction false} FilteredNewest(items: seq<Item>, matches: Matcher, query: string, low: int)
    requires Newest(items) && forall i :: 0 <= i < |items| ==> items[i].time >= low
    ensures var r := Filtered(items, matches, query);
      Newest(r) && forall i :: 0 <= i < |r| ==> r[i].time >= low
  {
    if |items| > 0 {
      FilteredNewest(items[..|items| - 1], matches, query, items[|items| - 1].time);
    }
  }

  const FILTER_BATCH := 200

  /** `matched` are the matching ones of the first `pages` pages of `rows` items. */
  ghost predicate Sifted(source: seq<Item>, matches: Matcher, query: string, pages: nat, rows: nat,
                         matched: seq<Item>) {
    matched == Filtered(Prefix(source, pages * rows), matches, query)
  }

  lemma NothingSifted(source: seq<Item>, matches: Matcher, query: string, rows: nat, matched: seq<Item>)
    requires |matched| == 0
    ensures Sifted(source, matches, query, 0, rows, matched)
  {
    assert |Prefix(source, 0 * rows)| == 0;
  }

  lemma SiftTurn(source: seq<Item>, matches: Matcher, query: string, pages: nat, rows: nat, matched: seq<Item>)
    requires Sifted(source, matches, query, pages, rows, matched)
    ensures Sifted(source, matches, query, pages + 1, rows,
                   matched + Filtered(Window(source, pages + 1, rows), matches, query))
    ensures (pages + 1) * rows == pages * rows + rows
  {
    WindowExtends(source, pages, rows);
    FilteredConcat(Prefix(source, pages * rows), Window(source, pages + 1, rows), matches, query);
    Product(pages, pages + 1, rows);
  }

  lemma AllSifted(source: seq<Item>, matches: Matcher, query: string, pages: nat, rows: nat, matched: seq<Item>)
    requires Sifted(source, matches, query, pages, rows, matched) && pages * rows >= |source|
    ensures matched == Filtered(source, matches, query)
  {
    assert Prefix(source, pages * rows) == source;
  }

  /** Reads every page of the query, however few rows a page has, and keeps the matching items. */
  method LoadFiltered(api: Api, matches: Matcher, query: string, ghost source: seq<Item>, ghost cap: nat)
    returns (r: Option<seq<Item>>, pages: nat)
    requires cap > 0 && Serves(api, query, source, cap)
    ensures r.Some? ==> r.value == Filtered(source, matches, query) && pages > 0
    ensures AlwaysAnswers(api, query) ==> r.Some?
  {
    var hasNext := true;
    var matched: seq<Item> := [];
    pages := 0;
    ghost var rows := Rows(FILTER_BATCH, cap);
    NothingSifted(source, matches, query, rows, matched);
    while hasNext
      invariant Sifted(source, matches, query, pages, rows, matched)
      invariant hasNext <==> pages == 0 || pages * rows < |source|
      decreases if hasNext then |source| - pages * rows + 1 else 0
    {
      var reply := api(query, pages + 1, FILTER_BATCH);
      if reply.Failed? {
        return None, pages;
      }
      var batch := ReadReply(reply, pages + 1, FILTER_BATCH);
      ReplyIsWindow(api, query, source, cap, pages + 1, FILTER_BATCH);
      SiftTurn(source, matches, query, pages, rows, matched);
      matched := matched + Filtered(batch.items, matches, query);
      hasNext := batch.hasNext;
      pages := pages + 1;
    }
    AllSifted(source, matches, query, pages, rows, matched);
    r := Some(matched);
  }

  ghost predicate FilteredFaithful(entries: map<Key, Entry>, matches: Matcher, source: Source) {
    forall k :: k in entries ==>
      entries[k].items == Filtered(source(k.query), matches, k.query) && entries[k].total == |entries[k].items|
  }

  lemma SetKeepsFiltered(before: map<Key, Entry>, after: map<Key, Entry>, matches: Matcher, source: Source, key: Key,
                         entry: Entry)
    requires FilteredFaithful(before, matches, source)
    requires entry.items == Filtered(source(key.query), matches, key.query) && entry.total == |entry.items|
    requires key in after && after[key] == entry
    requires forall k :: k in after && k != key ==> k in before && after[k] == before[k]
    ensures FilteredFaithful(after, matches, source)
  {
    forall k | k in after && k != key
      ensures after[k].items == Filtered(source(k.query), matches, k.query) && after[k].total == |after[k].items|
    {
      assert after[k] == before[k];
    }
  }

  method FetchFiltered(cache: SourceCache, api: Api, matches: Matcher, query: string, ghost source: Source,
                       ghost cap: nat)
    returns (r: Option<Batch>)
    requires cap > 0 && Serves(api, query, source(query), cap)
    requires cache.Valid() && FilteredFaithful(cache.entries, matches, source)
    modifies cache
    ensures cache.Valid() && FilteredFaithful(cache.entries, matches, source)
    ensures r.Some? ==> r.value.items == Filtered(source(query), matches, query) && r.value.total == |r.value.items|
    ensures AlwaysAnswers(api, query) ==> r.Some?
  {
    var key := Key(query, 0);
    var cached := cache.Touch(key);
    if cached.Some? {
      return Some(Batch(cached.value.items, cached.value.total, false));
    }
    var items, pages := LoadFiltered(api, matches, query, source(query), cap);
    if items.None? {
      return None;
    }
    ghost var before := cache.entries;
    var entry := Entry(items.value, |items.value|, false, pages);
    cache.Set(key, entry);
    SetKeepsFiltered(before, cache.entries, matches, source, key, entry);
    r := Some(Batch(items.value, |items.value|, false));
  }

  // ---- The merged page ----

  /** Both sources, and which queries have to be filtered on the client. */
  datatype Site = Site(api: Api, pipeline: Pipeline, onClient: string -> bool, matches: Matcher)

  /** The complete list of application items a query stands for. */
  function Application(site: Site, source: Source, query: string): seq<Item> {
    if site.onClient(query) then Filtered(source(query), site.matches, query) else source(query)
  }

  /** The page that two lists give: sorted together and sliced, with the total reported. */
  function PageOf(a: seq<Item>, b: seq<Item>, total: nat, page: nat, pageSize: nat): Page
    requires page > 0
  {
    Product(page - 1, page, pageSize);
    Page(Slice(Sorted(a + b), (page - 1) * pageSize, page * pageSize), total, page * pageSize < total)
  }

  /** What the loaders give of the two sources; a source that failed counts as empty. */
  function Loaded(part: Option<Batch>): Batch {
    if part.Some? then part.value else Batch([], 0, false)
  }

  method Combine(a: Option<Batch>, b: Option<Batch>, page: nat, pageSize: nat) returns (r: Option<Page>)
    requires page > 0 && Loaded(a).total >= 0 && Loaded(b).total >= 0
    ensures r == if a.None? && b.None? then None
      else Some(PageOf(Loaded(a).items, Loaded(b).items, Loaded(a).total + Loaded(b).total, page, pageSize))
  {
    var aItems := if a.Some? then a.value.items else [];
    var aTotal := if a.Some? then a.value.total else 0;
    var bItems := if b.Some? then b.value.items else [];
    var bTotal := if b.Some? then b.value.total else 0;
    if a.None? && b.None? {
      return None;
    }
    var merged := Sorted(aItems + bItems);
    Product(page - 1, page, pageSize);
    var start, end := (page - 1) * pageSize, page * pageSize;
    var total := aTotal + bTotal;
    r := Some(Page(Slice(merged, start, end), total, end < total));
  }

  function AtLeastOne(n: Option<int>, default: nat): (r: nat)
    requires default > 0
    ensures r > 0
  {
    Max(1, if n.Some? then n.value else default)
  }

  const DEFAULT_PAGE_SIZE := 20

  /** The complete lists of one query, both sorted newest first, and sites that serve them. */
  ghost predicate Describes(site: Site, query: string, app: Source, sys: Source, limits: Limits)
    requires limits.Sane()
  {
    && Newest(app(query)) && Newest(sys(query))
    && Serves(site.api, query, app(query), limits.pageRows) && ServesHits(site.pipeline, query, sys(query), limits)
  }

  lemma ApplicationNewest(site: Site, app: Source, query: string)
    requires Newest(app(query))
    ensures Newest(Application(site, app, query))
  {
    var items := app(query);
    if site.onClient(query) && |items| > 0 {
      FilteredNewest(items, site.matches, query, items[|items| - 1].time);
    }
  }

  /** What a fetch has of the application items: all of them where they are filtered on the
      client, and otherwise the first `n`. */
  ghost predicate AppPart(site: Site, query: string, whole: seq<Item>, n: nat, part: Option<Batch>) {
    part.Some? ==>
      part.value.total == |whole| && part.value.items == if site.onClient(query) then whole else Prefix(whole, n)
  }

  /** What a fetch has of the log query's items: the first `n`. */
  ghost predicate SysPart(sys: seq<Item>, counted: nat, n: nat, part: Option<Batch>) {
    part.Some? ==> part.value.total == Min(|sys|, counted) && part.value.items == Prefix(sys, n)
  }

  /** The page made of what the loaders gave, unless both failed. */
  ghost predicate Combines(r: Option<Page>, aPart: Option<Batch>, bPart: Option<Batch>, page: nat, pageSize: nat)
    requires page > 0
  {
    && Loaded(aPart).total >= 0 && Loaded(bPart).total >= 0
    && r == if aPart.None? && bPart.None? then None
       else Some(PageOf(Loaded(aPart).items, Loaded(bPart).items, Loaded(aPart).total + Loaded(bPart).total, page,
                        pageSize))
  }

  /** The page of the two complete lists. */
  function Complete(site: Site, query: string, app: Source, sys: Source, page: nat, pageSize: nat): Page
    requires page > 0
  {
    var whole := Application(site, app, query);
    PageOf(whole, sys(query), |whole| + |sys(query)|, page, pageSize)
  }

  /** The items are those of the complete lists, and so is the total unless the log query
      stopped counting. */
  ghost predicate Right(r: Option<Page>, right: Page, sys: seq<Item>, limits: Limits) {
    r.Some? && r.value.items == right.items && (r.value == right <==> |sys| <= limits.counted)
  }

  /** A fetch that has the first items of both sources, as far as the page ends, is right. */
  lemma EnoughIsRight(site: Site, query: string, app: Source, sys: Source, limits: Limits, page: nat, pageSize: nat,
                      a: nat, b: nat, aPart: Option<Batch>, bPart: Option<Batch>, r: Option<Page>)
    requires limits.Sane() && Describes(site, query, app, sys, limits) && page > 0
    requires AppPart(site, query, Application(site, app, query), a, aPart)
    requires SysPart(sys(query), limits.counted, b, bPart)
    requires Combines(r, aPart, bPart, page, pageSize)
    ensures aPart.Some? && bPart.Some? && b >= page * pageSize && (site.onClient(query) || a >= page * pageSize) ==>
      Right(r, Complete(site, query, app, sys, page, pageSize), sys(query), limits)
  {
    if aPart.Some? && bPart.Some? && b >= page * pageSize && (site.onClient(query) || a >= page * pageSize) {
      ApplicationNewest(site, app, query);
      Product(page - 1, page, pageSize);
      PageOfPrefixes(aPart.value.items, Application(site, app, query), bPart.value.items, sys(query),
                     (page - 1) * pageSize, page * pageSize);
    }
  }

  method FetchApplication(site: Site, query: string, window: nat, ghost app: Source,
                          ghost cap: nat) returns (r: Option<Batch>)
    requires window > 0 && cap > 0 && Serves(site.api, query, app(query), cap)
    ensures AppPart(site, query, Application(site, app, query), Min(window, cap), r)
    ensures AlwaysAnswers(site.api, query) ==> r.Some?
  {
    if !site.onClient(query) {
      var reply := site.api(query, 1, window);
      if reply.Failed? {
        return None;
      }
      ReplyIsWindow(site.api, query, app(query), cap, 1, window);
      return Some(ReadReply(reply, 1, window));
    }
    var items, pages := LoadFiltered(site.api, site.matches, query, app(query), cap);
    if items.None? {
      return None;
    }
    r := Some(Batch(items.value, |items.value|, |items.value| > window));
  }

  /** No request of the direct fetch is answered with less than it asks for. */
  predicate DirectFits(site: Site, query: string, limits: Limits, page: nat, pageSize: nat) {
    page * pageSize <= limits.hitRows && (site.onClient(query) || page * pageSize <= limits.pageRows)
  }

  /** One request to each source, for the whole window from the first page on. */
  method FetchSlidingWindow(site: Site, query: string, wantedPage: Option<int>, wantedSize: Option<int>,
                            ghost app: Source, ghost sys: Source, ghost limits: Limits)
    returns (r: Option<Page>, aPart: Option<Batch>, bPart: Option<Batch>)
    requires limits.Sane() && Describes(site, query, app, sys, limits)
    ensures var page, size := AtLeastOne(wantedPage, 1), AtLeastOne(wantedSize, DEFAULT_PAGE_SIZE);
      && Combines(r, aPart, bPart, page, size)
      && AppPart(site, query, Application(site, app, query), Min(page * size, limits.pageRows), aPart)
      && SysPart(sys(query), limits.counted, Min(page * size, limits.hitRows), bPart)
    ensures var page, size := AtLeastOne(wantedPage, 1), AtLeastOne(wantedSize, DEFAULT_PAGE_SIZE);
      aPart.Some? && bPart.Some? && DirectFits(site, query, limits, page, size) ==>
        Right(r, Complete(site, query, app, sys, page, size), sys(query), limits)
    ensures AlwaysAnswers(site.api, query) ==> aPart.Some?
    ensures AlwaysHits(site.pipeline, query) ==> bPart.Some?
  {
    var page, size := AtLeastOne(wantedPage, 1), AtLeastOne(wantedSize, DEFAULT_PAGE_SIZE);
    Product(1, page, size);
    var window := page * size;
    aPart := FetchApplication(site, query, window, app, limits.pageRows);
    var hits := site.pipeline(query, window);
    bPart := if hits.Hits? then Some(Batch(hits.items, hits.total, hits.total > window)) else None;
    r := Combine(aPart, bPart, page, size);
    EnoughIsRight(site, query, app, sys, limits, page, size,
                  Min(window, limits.pageRows), Min(window, limits.hitRows), aPart, bPart, r);
  }

  /** The three caches hold parts of the lists that the queries stand for. */
  ghost predicate CachesHold(pages: SourceCache, filtered: SourceCache, windows: SourceCache, site: Site,
                             app: Source, sys: Source, limits: Limits)
    requires limits.Sane()
    reads pages, filtered, windows
  {
    && pages != filtered && pages != windows && filtered != windows
    && pages.Valid() && filtered.Valid() && windows.Valid()
    && Faithful(pages.entries, app, limits.pageRows) && FilteredFaithful(filtered.entries, site.matches, app)
    && Wide(windows.entries, sys, limits)
  }

  method FetchBoundedApplication(pages: SourceCache, filtered: SourceCache, site: Site, query: string, page: nat,
                                 pageSize: nat, ghost app: Source, ghost cap: nat)
    returns (r: Option<Batch>)
    requires page > 0 && pageSize > 0 && cap > 0 && Serves(site.api, query, app(query), cap)
    requires pages != filtered && pages.Valid() && filtered.Valid()
    requires Faithful(pages.entries, app, cap) && FilteredFaithful(filtered.entries, site.matches, app)
    modifies pages, filtered
    ensures pages.Valid() && filtered.Valid()
    ensures Faithful(pages.entries, app, cap) && FilteredFaithful(filtered.entries, site.matches, app)
    ensures AppPart(site, query, Application(site, app, query),
                    ApiReach(cap, page, pageSize, Loads(old(pages.entries), Key(query, pageSize))), r)
    ensures AlwaysAnswers(site.api, query) ==> r.Some?
  {
    if !site.onClient(query) {
      r := FetchPages(pages, site.api, query, page, pageSize, app, cap);
    } else {
      r := FetchFiltered(filtered, site.api, site.matches, query, app, cap);
    }
  }

  /** The log query's answer is not cut short, and neither are the API's pages, unless so many
      of them were cached that they reach the end of the page nevertheless. */
  predicate BoundedFits(site: Site, query: string, limits: Limits, page: nat, pageSize: nat, loaded: nat)
    requires limits.Sane() && pageSize > 0
  {
    && page * pageSize <= limits.hitRows
    && (site.onClient(query) || pageSize <= limits.pageRows || loaded * limits.pageRows >= page * pageSize)
  }

  lemma Larger(n: nat, a: nat, b: nat)
    requires n > 0 && a < b
    ensures n * a < n * b
  {
    assert n * b == n * a + n * (b - a);
  }

  lemma BoundedReaches(cap: nat, page: nat, pageSize: nat, loaded: nat)
    requires cap > 0 && page > 0 && pageSize > 0
    ensures ApiReach(cap, page, pageSize, loaded) >= page * pageSize
      <==> pageSize <= cap || loaded * cap >= page * pageSize
  {
    if pageSize <= cap {
      Product(page, Max(page, loaded), pageSize);
    } else {
      Larger(page, cap, pageSize);
      if loaded <= page {
        Product(loaded, page, cap);
      }
    }
  }

  lemma BoundedIsRight(site: Site, query: string, app: Source, sys: Source, limits: Limits, page: nat, pageSize: nat,
                       loaded: nat, widened: nat, aPart: Option<Batch>, bPart: Option<Batch>, r: Option<Page>)
    requires limits.Sane() && Describes(site, query, app, sys, limits) && page > 0 && pageSize > 0
    requires AppPart(site, query, Application(site, app, query), ApiReach(limits.pageRows, page, pageSize, loaded),
                     aPart)
    requires SysPart(sys(query), limits.counted, HitReach(limits.hitRows, page, pageSize, widened), bPart)
    requires Combines(r, aPart, bPart, page, pageSize)
    ensures aPart.Some? && bPart.Some? && BoundedFits(site, query, limits, page, pageSize, loaded) ==>
      Right(r, Complete(site, query, app, sys, page, pageSize), sys(query), limits)
  {
    BoundedReaches(limits.pageRows, page, pageSize, loaded);
    Product(page, Max(page, widened), pageSize);
    EnoughIsRight(site, query, app, sys, limits, page, pageSize, ApiReach(limits.pageRows, page, pageSize, loaded),
                  HitReach(limits.hitRows, page, pageSize, widened), aPart, bPart, r);
  }

  /** The cached fetch: pages of the application source one by one, and a growing window of the
      other, from any such caches. */
  method FetchBoundedWindow(pages: SourceCache, filtered: SourceCache, windows: SourceCache,
                            site: Site, query: string, wantedPage: Option<int>, wantedSize: Option<int>,
                            ghost app: Source, ghost sys: Source, ghost limits: Limits)
    returns (r: Option<Page>, aPart: Option<Batch>, bPart: Option<Batch>)
    requires limits.Sane() && Describes(site, query, app, sys, limits)
    requires CachesHold(pages, filtered, windows, site, app, sys, limits)
    modifies pages, filtered, windows
    ensures CachesHold(pages, filtered, windows, site, app, sys, limits)
    ensures var page, size := AtLeastOne(wantedPage, 1), AtLeastOne(wantedSize, DEFAULT_PAGE_SIZE);
      var loaded, widened := Loads(old(pages.entries), Key(query, size)), Loads(old(windows.entries), Key(query, size));
      && Combines(r, aPart, bPart, page, size)
      && AppPart(site, query, Application(site, app, query), ApiReach(limits.pageRows, page, size, loaded), aPart)
      && SysPart(sys(query), limits.counted, HitReach(limits.hitRows, page, size, widened), bPart)
      && (aPart.Some? && bPart.Some? && BoundedFits(site, query, limits, page, size, loaded) ==>
            Right(r, Complete(site, query, app, sys, page, size), sys(query), limits))
    ensures AlwaysAnswers(site.api, query) ==> aPart.Some?
    ensures AlwaysHits(site.pipeline, query) ==> bPart.Some?
  {
    var page, size := AtLeastOne(wantedPage, 1), AtLeastOne(wantedSize, DEFAULT_PAGE_SIZE);
    aPart := FetchBoundedApplication(pages, filtered, site, query, page, size, app, limits.pageRows);
    bPart := FetchWindow(windows, site.pipeline, query, page, size, sys, limits);
    r := Combine(aPart, bPart, page, size);
    BoundedIsRight(site, query, app, sys, limits, page, size, Loads(old(pages.entries), Key(query, size)),
                   Loads(old(windows.entries), Key(query, size)), aPart, bPart, r);
  }
}
