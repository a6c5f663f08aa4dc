/** The two audit sources, their caches, and the two ways a merged page is fetched: with one
    large request to each source, or with cached requests that grow page by page. */
module AuditSources {
  import opened Prelude
  import opened Audit

  /** An answer of the audit API. The totals may be missing from its metadata. */
  datatype Reply = Failed | Reply(items: seq<Item>, total: Option<int>, hasNext: Option<bool>)

  /** An answer of the log query. */
  datatype Hits = NoHits | Hits(items: seq<Item>, total: int)

  /** The sources as functions of the query, the page number and the page size; the log query
      is always asked for its first page. */
  type Api = (string, nat, nat) -> Reply
  type Pipeline = (string, nat) -> Hits

  datatype Batch = Batch(items: seq<Item>, total: int, hasNext: bool)

  datatype Page = Page(items: seq<Item>, total: int, hasNext: bool)

  lemma Product(n: nat, m: nat, size: nat)
    requires n <= m
    ensures n * size <= m * size && (n + 1) * size == n * size + size && 0 <= n * size
  {
    assert m * size == n * size + (m - n) * size;
  }

  /** Page `n` of a list, counted from 1. */
  function Window(source: seq<Item>, n: nat, size: nat): (r: seq<Item>)
    requires n > 0
  {
    Product(n - 1, n, size);
    Slice(source, (n - 1) * size, n * size)
  }

  /** What the servers do not exceed, whatever is asked: the rows of a page of the API, the
      rows of an answer of the log query, and how far the log query counts its total. */
  datatype Limits = Limits(pageRows: nat, hitRows: nat, counted: nat) {
    predicate Sane() { 0 < pageRows && 0 < hitRows <= counted }
  }

  /** The limits of the two servers as they are. */
  const SERVERS := Limits(200, 200, 10000)

  /** The rows of a page when `size` are asked for. */
  function Rows(size: nat, cap: nat): (rows: nat)
    requires size > 0 && cap > 0
    ensures 0 < rows <= size && rows <= cap
  {
    Min(size, cap)
  }

  /** The answers describe a fixed list, though any request may fail. A page larger than the cap
      is answered as one of the cap's size; has_next then comes from the server. */
  ghost predicate Serves(api: Api, query: string, source: seq<Item>, cap: nat)
    requires cap > 0
  {
    forall n: nat, size: nat :: n > 0 && size > 0 && api(query, n, size).Reply? ==>
      && api(query, n, size).items == Window(source, n, Rows(size, cap))
      && api(query, n, size).total == Some(|source|)
      && (|| api(query, n, size).hasNext == Some(n * Rows(size, cap) < |source|)
          || (api(query, n, size).hasNext == None && size <= cap))
  }

  ghost predicate ServesHits(pipeline: Pipeline, query: string, source: seq<Item>, limits: Limits)
    requires limits.Sane()
  {
    forall size: nat :: size > 0 && pipeline(query, size).Hits? ==>
      pipeline(query, size) == Hits(Prefix(source, Rows(size, limits.hitRows)), Min(|source|, limits.counted))
  }

  lemma WindowExtends(source: seq<Item>, n: nat, size: nat)
    ensures Prefix(source, n * size) + Window(source, n + 1, size) == Prefix(source, (n + 1) * size)
  {
    Product(n, n + 1, size);
  }

  function ReadReply(r: Reply, n: nat, size: nat): (b: Batch)
    requires r.Reply?
  {
    var total := if r.total.Some? then r.total.value else |r.items|;
    Batch(r.items, total, if r.hasNext.Some? then r.hasNext.value else n * size < total)
  }

  // ---- The cache ----

  const CACHE_LIMIT := 24

  datatype Key = Key(query: string, pageSize: nat)

  datatype Entry = Entry(items: seq<Item>, total: int, hasNext: bool, loadedPages: nat)

  function Without(keys: seq<Key>, key: Key): (r: seq<Key>)
    ensures key !in r
    ensures forall k :: k in r <==> k in keys && k != key
  {
    if |keys| == 0 then []
    else Without(keys[..|keys| - 1], key) + if keys[|keys| - 1] == key then [] else [keys[|keys| - 1]]
  }

  predicate Unique(keys: seq<Key>) {
    forall i, j :: 0 <= i < j < |keys| ==> keys[i] != keys[j]
  }

  lemma SnocUnique(keys: seq<Key>, key: Key)
    requires Unique(keys) && key !in keys
    ensures Unique(keys + [key])
  {
  }

  lemma {:induction false} WithoutUnique(keys: seq<Key>, key: Key)
    requires Unique(keys)
    ensures Unique(Without(keys, key)) && |Without(keys, key)| <= |keys|
    ensures key !in keys ==> Without(keys, key) == keys
  {
    if |keys| > 0 {
      var front, last := keys[..|keys| - 1], keys[|keys| - 1];
      WithoutUnique(front, key);
      assert last !in front && keys == front + [last];
      if last != key {
        SnocUnique(Without(front, key), last);
      }
    }
  }

  function Newer(keys: seq<Key>): (r: seq<Key>) {
    keys[|keys| - Min(|keys|, CACHE_LIMIT)..]
  }

  lemma UniqueTail(keys: seq<Key>)
    requires Unique(keys) && |keys| > 0
    ensures Unique(keys[1..]) && keys[0] !in keys[1..]
  {
  }

  lemma {:induction false} WithoutShrinks(keys: seq<Key>, key: Key)
    requires Unique(keys) && key in keys
    ensures |Without(keys, key)| < |keys|
  {
    var n := |keys| - 1;
    WithoutUnique(keys[..n], key);
    if keys[n] != key {
      assert key in keys[..n];
      WithoutShrinks(keys[..n], key);
    }
  }

  lemma Renewed(keys: seq<Key>, entries: map<Key, Entry>, key: Key, entry: Entry)
    requires Unique(keys) && forall k :: k in keys <==> k in entries
    ensures var after := Without(keys, key) + [key];
      Unique(after) && forall k :: k in after <==> k in entries[key := entry]
  {
    WithoutUnique(keys, key);
  }

  /** A map that remembers the order in which its keys were last set, and keeps the latest. */
  class SourceCache {
    var keys: seq<Key>
    var entries: map<Key, Entry>

    ghost predicate Synced()
      reads this
    {
      Unique(keys) && forall k :: k in keys <==> k in entries
    }

    ghost predicate Valid()
      reads this
    {
      Synced() && |keys| <= CACHE_LIMIT
    }

    constructor ()
      ensures Valid() && entries == map[] && |keys| == 0
    {
      keys, entries := [], map[];
    }

    method Touch(key: Key) returns (entry: Option<Entry>)
      requires Valid()
      modifies this`keys
      ensures Valid()
      ensures entry == if key in entries then Some(entries[key]) else None
      ensures keys == if key in entries then Without(old(keys), key) + [key] else old(keys)
    {
      if key !in entries {
        return None;
      }
      WithoutUnique(keys, key);
      WithoutShrinks(keys, key);
      keys := Without(keys, key) + [key];
      entry := Some(entries[key]);
    }

    method RemoveOldest()
      requires Synced() && |keys| > 0
      modifies this
      ensures Synced() && keys == old(keys)[1..]
      ensures forall k :: k in entries ==> k in old(entries) && entries[k] == old(entries)[k]
    {
      var oldest := keys[0];
      UniqueTail(keys);
      assert keys == [oldest] + keys[1..];
      keys, entries := keys[1..], entries - {oldest};
    }

    method EvictOldest()
      requires Synced()
      modifies this
      ensures Valid() && keys == Newer(old(keys))
      ensures forall k :: k in entries ==> k in old(entries) && entries[k] == old(entries)[k]
    {
      while |keys| > CACHE_LIMIT
        invariant Min(|old(keys)|, CACHE_LIMIT) <= |keys| <= |old(keys)|
        invariant keys == old(keys)[|old(keys)| - |keys|..] && Synced()
        invariant forall k :: k in entries ==> k in old(entries) && entries[k] == old(entries)[k]
      {
        RemoveOldest();
      }
    }

    method Set(key: Key, entry: Entry)
      requires Valid()
      modifies this
      ensures Valid() && key in entries && entries[key] == entry
      ensures forall k :: k in entries && k != key ==> k in old(entries) && entries[k] == old(entries)[k]
      ensures keys == Newer(Without(old(keys), key) + [key])
    {
      Renewed(keys, entries, key, entry);
      keys, entries := Without(keys, key) + [key], entries[key := entry];
      EvictOldest();
      assert keys[|keys| - 1] == key;
    }
  }
}
