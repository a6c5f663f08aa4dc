/** When a merged audit page is the page of the complete lists. The servers cap what one request
    is answered with, so a page that ends beyond a cap can lose items; the exact conditions are
    here, for the direct and for the cached fetch. */
module AuditPages {
  import opened Prelude
  import opened Audit
  import opened AuditSources
  import opened AuditFetch

  lemma {:induction false} InsertLength(sorted: seq<Item>, x: Item)
    ensures |Insert(sorted, x)| == |sorted| + 1
  {
    if |sorted| > 0 && sorted[|sorted| - 1].time < x.time {
      InsertLength(sorted[..|sorted| - 1], x);
    }
  }

  lemma {:induction false} SortedLength(items: seq<Item>)
    ensures |Sorted(items)| == |items|
  {
    if |items| > 0 {
      SortedLength(items[..|items| - 1]);
      InsertLength(Sorted(items[..|items| - 1]), items[|items| - 1]);
    }
  }

  /** The application items of a fetch: the whole list when it is filtered on the client. */
  function Share(whole: bool, app: seq<Item>, a: nat): seq<Item> {
    if whole then app else Prefix(app, a)
  }

  /** What is left of a page when only so much of the application list and the first `b` items of
      the other one are there. */
  function Clipped(whole: bool, app: seq<Item>, sys: seq<Item>, a: nat, b: nat, start: nat, end: nat): seq<Item>
    requires start <= end
  {
    Slice(Sorted(Share(whole, app, a) + Prefix(sys, b)), start, end)
  }

  /** They give the page of any two lists that are sorted newest first. */
  ghost predicate Suffice(whole: bool, a: nat, b: nat, start: nat, end: nat)
    requires start <= end
  {
    forall app: seq<Item>, sys: seq<Item> {:trigger Clipped(whole, app, sys, a, b, start, end)} ::
      Newest(app) && Newest(sys) ==> Clipped(whole, app, sys, a, b, start, end) == Slice(Sorted(app + sys), start, end)
  }

  /** `n` items of one time. */
  function Burst(n: nat): (r: seq<Item>)
    ensures |r| == n && Newest(r)
  {
    seq(n, i => Item("", 0))
  }

  lemma ClippedLength(whole: bool, app: seq<Item>, sys: seq<Item>, a: nat, b: nat, start: nat, end: nat)
    requires start <= end
    ensures var n := |Share(whole, app, a)| + |Prefix(sys, b)|;
      |Clipped(whole, app, sys, a, b, start, end)| == Min(end, n) - Min(start, n)
  {
    SortedLength(Share(whole, app, a) + Prefix(sys, b));
  }

  lemma PageLength(app: seq<Item>, sys: seq<Item>, start: nat, end: nat)
    requires start <= end
    ensures var n := |app| + |sys|; |Slice(Sorted(app + sys), start, end)| == Min(end, n) - Min(start, n)
  {
    SortedLength(app + sys);
  }

  /** A page loses its last items when they are all in the list of which too few are read. */
  lemma BurstIsClipped(whole: bool, a: nat, b: nat, start: nat, end: nat)
    requires start < end
    ensures !whole && a < end ==>
      |Clipped(whole, Burst(end), Burst(0), a, b, start, end)| < |Slice(Sorted(Burst(end) + Burst(0)), start, end)|
    ensures b < end ==>
      |Clipped(whole, Burst(0), Burst(end), a, b, start, end)| < |Slice(Sorted(Burst(0) + Burst(end)), start, end)|
  {
    ClippedLength(whole, Burst(end), Burst(0), a, b, start, end);
    ClippedLength(whole, Burst(0), Burst(end), a, b, start, end);
    PageLength(Burst(end), Burst(0), start, end);
    PageLength(Burst(0), Burst(end), start, end);
  }

  lemma SufficeIff(whole: bool, a: nat, b: nat, start: nat, end: nat)
    requires start < end
    ensures Suffice(whole, a, b, start, end) <==> (whole || a >= end) && b >= end
  {
    BurstIsClipped(whole, a, b, start, end);
    if (whole || a >= end) && b >= end {
      forall app: seq<Item>, sys: seq<Item> | Newest(app) && Newest(sys)
        ensures Clipped(whole, app, sys, a, b, start, end) == Slice(Sorted(app + sys), start, end)
      {
        PageOfPrefixes(Share(whole, app, a), app, Prefix(sys, b), sys, start, end);
      }
    }
  }

  /** The direct fetch asks once for everything up to the end of the page; a list that is
      filtered on the client it reads in full. It is right for all sources exactly when the
      servers answer these requests in full. */
  lemma DirectRightIff(site: Site, query: string, limits: Limits, page: nat, pageSize: nat)
    requires limits.Sane() && page > 0 && pageSize > 0
    ensures 0 <= (page - 1) * pageSize < page * pageSize
    ensures Suffice(site.onClient(query), Min(page * pageSize, limits.pageRows), Min(page * pageSize, limits.hitRows),
                    (page - 1) * pageSize, page * pageSize)
      <==> DirectFits(site, query, limits, page, pageSize)
  {
    Product(page - 1, page, pageSize);
    SufficeIff(site.onClient(query), Min(page * pageSize, limits.pageRows), Min(page * pageSize, limits.hitRows),
               (page - 1) * pageSize, page * pageSize);
  }

  /** The cached fetch loads the API page by page, so only the size of one page is limited
      there; its window of the log query is limited as the direct one is. `loaded` and `widened`
      say how many pages its caches held before. */
  lemma CachedRightIff(site: Site, query: string, limits: Limits, page: nat, pageSize: nat, loaded: nat, widened: nat)
    requires limits.Sane() && page > 0 && pageSize > 0
    ensures 0 <= (page - 1) * pageSize < page * pageSize
    ensures Suffice(site.onClient(query), ApiReach(limits.pageRows, page, pageSize, loaded),
                    HitReach(limits.hitRows, page, pageSize, widened), (page - 1) * pageSize, page * pageSize)
      <==> BoundedFits(site, query, limits, page, pageSize, loaded)
  {
    Product(page - 1, page, pageSize);
    Product(page, Max(page, widened), pageSize);
    BoundedReaches(limits.pageRows, page, pageSize, loaded);
    SufficeIff(site.onClient(query), ApiReach(limits.pageRows, page, pageSize, loaded),
               HitReach(limits.hitRows, page, pageSize, widened), (page - 1) * pageSize, page * pageSize);
  }

  // ---- A page beyond the cap ----

  /** A server that keeps to its cap. */
  function Server(source: seq<Item>, cap: nat): (api: Api)
    requires cap > 0
    ensures forall query :: Serves(api, query, source, cap) && AlwaysAnswers(api, query)
  {
    (query: string, n: nat, size: nat) =>
      if n == 0 || size == 0 then Failed
      else Reply(Window(source, n, Rows(size, cap)), Some(|source|), Some(n * Rows(size, cap) < |source|))
  }

  function HitServer(source: seq<Item>, limits: Limits): (pipeline: Pipeline)
    requires limits.Sane()
    ensures forall query :: ServesHits(pipeline, query, source, limits) && AlwaysHits(pipeline, query)
  {
    (query: string, size: nat) =>
      if size == 0 then NoHits else Hits(Prefix(source, Rows(size, limits.hitRows)), Min(|source|, limits.counted))
  }

  /** 210 application items, ten to a page, and the 21st page: a fetch that has 200 of them
      finds nothing, one that has 21 pages of ten finds ten items. */
  lemma BeyondTheCap()
    ensures |Clipped(false, Burst(210), Burst(0), Min(210, SERVERS.pageRows), Min(210, SERVERS.hitRows), 200, 210)| == 0
    ensures |Clipped(false, Burst(210), Burst(0), ApiReach(SERVERS.pageRows, 21, 10, 0),
                     HitReach(SERVERS.hitRows, 21, 10, 0), 200, 210)| == 10
    ensures |Slice(Sorted(Burst(210) + Burst(0)), 200, 210)| == 10
  {
    ClippedLength(false, Burst(210), Burst(0), 200, 200, 200, 210);
    ClippedLength(false, Burst(210), Burst(0), 210, 200, 200, 210);
    PageLength(Burst(210), Burst(0), 200, 210);
  }

  /** The same on the two fetches: for one page of one query they give different items. */
  method FetchesDisagree(matches: Matcher) returns (direct: Option<Page>, cached: Option<Page>)
    ensures direct.Some? && |direct.value.items| == 0
    ensures cached.Some? && |cached.value.items| == 10
  {
    ghost var app: Source, sys: Source := q => Burst(210), q => Burst(0);
    var site := Site(Server(Burst(210), SERVERS.pageRows), HitServer(Burst(0), SERVERS), q => false, matches);
    var pages := new SourceCache();
    var filtered := new SourceCache();
    var windows := new SourceCache();
    var aPart, bPart;
    direct, aPart, bPart := FetchSlidingWindow(site, "", Some(21), Some(10), app, sys, SERVERS);
    cached, aPart, bPart :=
      FetchBoundedWindow(pages, filtered, windows, site, "", Some(21), Some(10), app, sys, SERVERS);
    BeyondTheCap();
  }
}
