/** Merging two audit sources into one page: concatenate what each source gave, sort newest
    first, slice. The sort is stable, as Array.prototype.sort is (ECMA-262, section 23.1.3.30). */
module Audit {
  import opened Prelude

  /** An audit item and the time its creation date parses to. */
  datatype Item = Item(id: string, time: int)

  /** Sorted newest first. */
  predicate Newest(items: seq<Item>) {
    forall i, j :: 0 <= i < j < |items| ==> items[i].time >= items[j].time
  }

  /** The items of one time, in order. */
  function AtTime(items: seq<Item>, t: int): (r: seq<Item>) {
    if |items| == 0 then []
    else AtTime(items[..|items| - 1], t) + if items[|items| - 1].time == t then [items[|items| - 1]] else []
  }

  /** `out` is a stable sort of `items`: newest first, and items of one time keep their order. */
  ghost predicate IsStableSort(items: seq<Item>, out: seq<Item>) {
    Newest(out) && forall t :: AtTime(out, t) == AtTime(items, t)
  }

  /** Insertion after every item that is not older. */
  function Insert(sorted: seq<Item>, x: Item): (r: seq<Item>) {
    if |sorted| == 0 || sorted[|sorted| - 1].time >= x.time then sorted + [x]
    else Insert(sorted[..|sorted| - 1], x) + [sorted[|sorted| - 1]]
  }

  function Sorted(items: seq<Item>): (r: seq<Item>) {
    if |items| == 0 then [] else Insert(Sorted(items[..|items| - 1]), items[|items| - 1])
  }

  /** items.slice(start, end), for bounds that are not negative. */
  function Slice(items: seq<Item>, start: nat, end: nat): (r: seq<Item>)
    requires start <= end
  {
    items[Min(start, |items|)..Min(end, |items|)]
  }

  function Prefix(items: seq<Item>, n: nat): (r: seq<Item>)
    ensures |r| == Min(n, |items|) && r <= items
  {
    items[..Min(n, |items|)]
  }

  // ---- The sort ----

  lemma AtTimeSnoc(items: seq<Item>, x: Item, t: int)
    ensures AtTime(items + [x], t) == AtTime(items, t) + if x.time == t then [x] else []
  {
    assert (items + [x])[..|items|] == items;
  }

  lemma {:induction false} AtTimeConcat(a: seq<Item>, b: seq<Item>, t: int)
    ensures AtTime(a + b, t) == AtTime(a, t) + AtTime(b, t)
  {
    if |b| == 0 {
      assert a + b == a;
    } else {
      AtTimeConcat(a, b[..|b| - 1], t);
      assert (a + b)[..|a| + |b| - 1] == a + b[..|b| - 1];
    }
  }

  lemma {:induction false} InsertAbove(sorted: seq<Item>, x: Item, low: int)
    requires x.time >= low && forall i :: 0 <= i < |sorted| ==> sorted[i].time >= low
    ensures forall i :: 0 <= i < |Insert(sorted, x)| ==> Insert(sorted, x)[i].time >= low
  {
    if |sorted| > 0 && sorted[|sorted| - 1].time < x.time {
      InsertAbove(sorted[..|sorted| - 1], x, low);
    }
  }

  lemma {:induction false} InsertSorts(sorted: seq<Item>, x: Item)
    requires Newest(sorted)
    ensures Newest(Insert(sorted, x))
  {
    if |sorted| > 0 && sorted[|sorted| - 1].time < x.time {
      InsertSorts(sorted[..|sorted| - 1], x);
      InsertAbove(sorted[..|sorted| - 1], x, sorted[|sorted| - 1].time);
    }
  }

  lemma {:induction false} InsertKeepsOrder(sorted: seq<Item>, x: Item, t: int)
    requires Newest(sorted)
    ensures AtTime(Insert(sorted, x), t) == AtTime(sorted, t) + if x.time == t then [x] else []
  {
    if |sorted| == 0 || sorted[|sorted| - 1].time >= x.time {
      AtTimeSnoc(sorted, x, t);
    } else {
      var front, last := sorted[..|sorted| - 1], sorted[|sorted| - 1];
      InsertKeepsOrder(front, x, t);
      AtTimeSnoc(Insert(front, x), last, t);
      if last.time == t {
        assert AtTime(Insert(front, x), t) == AtTime(front, t);
      } else {
        assert AtTime(sorted, t) == AtTime(front, t);
      }
    }
  }

  lemma {:induction false} SortedSorts(items: seq<Item>)
    ensures Newest(Sorted(items))
  {
    if |items| > 0 {
      SortedSorts(items[..|items| - 1]);
      InsertSorts(Sorted(items[..|items| - 1]), items[|items| - 1]);
    }
  }

  lemma {:induction false} SortedKeepsOrder(items: seq<Item>, t: int)
    ensures AtTime(Sorted(items), t) == AtTime(items, t)
  {
    if |items| > 0 {
      SortedSorts(items[..|items| - 1]);
      SortedKeepsOrder(items[..|items| - 1], t);
      InsertKeepsOrder(Sorted(items[..|items| - 1]), items[|items| - 1], t);
    }
  }

  lemma SortedIsStable(items: seq<Item>)
    ensures IsStableSort(items, Sorted(items))
  {
    SortedSorts(items);
    forall t ensures AtTime(Sorted(items), t) == AtTime(items, t) {
      SortedKeepsOrder(items, t);
    }
  }

  lemma {:induction false} AtTimeEmpty(items: seq<Item>, t: int)
    requires forall i :: 0 <= i < |items| ==> items[i].time != t
    ensures |AtTime(items, t)| == 0
  {
    if |items| > 0 {
      AtTimeEmpty(items[..|items| - 1], t);
    }
  }

  lemma AtTimeLast(items: seq<Item>, t: int)
    requires |AtTime(items, t)| > 0
    ensures exists i :: 0 <= i < |items| && items[i].time == t
  {
    if forall i :: 0 <= i < |items| ==> items[i].time != t {
      AtTimeEmpty(items, t);
    }
  }

  /** The oldest items of two lists with the same items at each time are of the same time. */
  lemma LastNotOlder(a: seq<Item>, b: seq<Item>)
    requires Newest(b) && |a| > 0 && AtTime(a, a[|a| - 1].time) == AtTime(b, a[|a| - 1].time)
    ensures |b| > 0 && b[|b| - 1].time <= a[|a| - 1].time
  {
    var t := a[|a| - 1].time;
    assert |AtTime(a, t)| > 0;
    AtTimeLast(b, t);
  }

  /** Two lists with the same items at each time, and the same last time, end in one item. */
  lemma SameLast(a: seq<Item>, b: seq<Item>)
    requires |a| > 0 && |b| > 0 && a[|a| - 1].time == b[|b| - 1].time
    requires AtTime(a, a[|a| - 1].time) == AtTime(b, a[|a| - 1].time)
    ensures a[|a| - 1] == b[|b| - 1]
  {
    var at, bt := AtTime(a, a[|a| - 1].time), AtTime(b, a[|a| - 1].time);
    assert at[|at| - 1] == a[|a| - 1] && bt[|bt| - 1] == b[|b| - 1];
  }

  /** What follows two lists that are followed by the same says that they are the same. */
  lemma SameFronts<T>(a: seq<T>, b: seq<T>, more: seq<T>)
    requires a + more == b + more
    ensures a == b
  {
    assert |a| == |b|;
    assert a == (a + more)[..|a|] && b == (b + more)[..|b|];
  }

  /** Two sorted lists with the same items at each time end in one item. */
  lemma SameEnds(a: seq<Item>, b: seq<Item>)
    requires Newest(a) && Newest(b) && |a| > 0 && forall t :: AtTime(a, t) == AtTime(b, t)
    ensures |b| > 0 && a[|a| - 1] == b[|b| - 1]
  {
    LastNotOlder(a, b);
    LastNotOlder(b, a);
    SameLast(a, b);
  }

  /** There is only one stable sort. */
  lemma {:induction false} StableSortIsUnique(a: seq<Item>, b: seq<Item>)
    requires Newest(a) && Newest(b) && forall t :: AtTime(a, t) == AtTime(b, t)
    ensures a == b
  {
    if |a| == 0 {
      if |b| > 0 {
        LastNotOlder(b, a);
      }
    } else {
      SameEnds(a, b);
      var front, back := a[..|a| - 1], b[..|b| - 1];
      forall t ensures AtTime(front, t) == AtTime(back, t) {
        assert AtTime(a, t) == AtTime(b, t);
        SameFronts(AtTime(front, t), AtTime(back, t), if a[|a| - 1].time == t then [a[|a| - 1]] else []);
      }
      StableSortIsUnique(front, back);
      assert a == front + [a[|a| - 1]] && b == back + [b[|b| - 1]];
    }
  }

  // ---- Sorting two sorted lists is merging them ----

  /** On equal times the first list comes first. */
  function Merge(a: seq<Item>, b: seq<Item>): (r: seq<Item>)
    decreases |a| + |b|
  {
    if |a| == 0 then b
    else if |b| == 0 then a
    else if a[0].time >= b[0].time then [a[0]] + Merge(a[1..], b)
    else [b[0]] + Merge(a, b[1..])
  }

  lemma {:induction false} MergeBelow(a: seq<Item>, b: seq<Item>, high: int)
    requires forall i :: 0 <= i < |a| ==> a[i].time <= high
    requires forall i :: 0 <= i < |b| ==> b[i].time <= high
    ensures forall i :: 0 <= i < |Merge(a, b)| ==> Merge(a, b)[i].time <= high
    decreases |a| + |b|
  {
    if |a| > 0 && |b| > 0 {
      if a[0].time >= b[0].time {
        MergeBelow(a[1..], b, high);
      } else {
        MergeBelow(a, b[1..], high);
      }
    }
  }

  lemma {:induction false} MergeSorts(a: seq<Item>, b: seq<Item>)
    requires Newest(a) && Newest(b)
    ensures Newest(Merge(a, b))
    decreases |a| + |b|
  {
    if |a| > 0 && |b| > 0 {
      if a[0].time >= b[0].time {
        MergeSorts(a[1..], b);
        MergeBelow(a[1..], b, a[0].time);
      } else {
        MergeSorts(a, b[1..]);
        MergeBelow(a, b[1..], b[0].time);
      }
    }
  }

  lemma AtTimeCons(x: Item, rest: seq<Item>, t: int)
    ensures AtTime([x] + rest, t) == (if x.time == t then [x] else []) + AtTime(rest, t)
  {
    AtTimeConcat([x], rest, t);
    AtTimeSnoc([x][..0], x, t);
    assert [x][..0] + [x] == [x];
  }

  lemma FirstOf(a: seq<Item>, t: int)
    requires |a| > 0
    ensures AtTime(a, t) == (if a[0].time == t then [a[0]] else []) + AtTime(a[1..], t)
  {
    assert a == [a[0]] + a[1..];
    AtTimeCons(a[0], a[1..], t);
  }

  lemma {:induction false} MergeKeepsOrder(a: seq<Item>, b: seq<Item>, t: int)
    requires Newest(a)
    ensures AtTime(Merge(a, b), t) == AtTime(a, t) + AtTime(b, t)
    decreases |a| + |b|
  {
    if |a| > 0 && |b| > 0 {
      if a[0].time >= b[0].time {
        MergeKeepsOrder(a[1..], b, t);
        AtTimeCons(a[0], Merge(a[1..], b), t);
        FirstOf(a, t);
      } else {
        MergeKeepsOrder(a, b[1..], t);
        AtTimeCons(b[0], Merge(a, b[1..]), t);
        FirstOf(b, t);
        if b[0].time == t {
          AtTimeEmpty(a, t);
        }
      }
    }
  }

  lemma SortIsMerge(a: seq<Item>, b: seq<Item>)
    requires Newest(a) && Newest(b)
    ensures Sorted(a + b) == Merge(a, b)
  {
    SortedIsStable(a + b);
    MergeSorts(a, b);
    forall t ensures AtTime(Sorted(a + b), t) == AtTime(Merge(a, b), t) {
      SortedKeepsOrder(a + b, t);
      MergeKeepsOrder(a, b, t);
      AtTimeConcat(a, b, t);
    }
    StableSortIsUnique(Sorted(a + b), Merge(a, b));
  }

  // ---- A page needs only the first items of each source ----

  lemma {:induction false} MergeLength(a: seq<Item>, b: seq<Item>)
    ensures |Merge(a, b)| == |a| + |b|
    decreases |a| + |b|
  {
    if |a| > 0 && |b| > 0 {
      if a[0].time >= b[0].time {
        MergeLength(a[1..], b);
      } else {
        MergeLength(a, b[1..]);
      }
    }
  }

  /** `part` holds at least the first `n` items of `whole`, or all of them. */
  predicate Enough(part: seq<Item>, whole: seq<Item>, n: nat) {
    part <= whole && |part| >= Min(n, |whole|)
  }

  lemma PrefixCons(x: Item, a: seq<Item>, b: seq<Item>, n: nat)
    requires n > 0 && Prefix(a, n - 1) == Prefix(b, n - 1)
    ensures Prefix([x] + a, n) == Prefix([x] + b, n)
  {
    assert Prefix([x] + a, n) == [x] + Prefix(a, n - 1);
    assert Prefix([x] + b, n) == [x] + Prefix(b, n - 1);
  }

  lemma {:induction false} MergePrefix(a: seq<Item>, wholeA: seq<Item>, b: seq<Item>, wholeB: seq<Item>, n: nat)
    requires Enough(a, wholeA, n) && Enough(b, wholeB, n)
    ensures Prefix(Merge(a, b), n) == Prefix(Merge(wholeA, wholeB), n)
    decreases n
  {
    MergeLength(a, b);
    MergeLength(wholeA, wholeB);
    if n > 0 && |wholeA| == 0 {
      assert Prefix(b, n) == Prefix(wholeB, n);
    } else if n > 0 && |wholeB| == 0 {
      assert Prefix(a, n) == Prefix(wholeA, n);
    } else if n > 0 {
      assert a[0] == wholeA[0] && b[0] == wholeB[0];
      if a[0].time >= b[0].time {
        MergePrefix(a[1..], wholeA[1..], b, wholeB, n - 1);
        PrefixCons(a[0], Merge(a[1..], b), Merge(wholeA[1..], wholeB), n);
      } else {
        MergePrefix(a, wholeA, b[1..], wholeB[1..], n - 1);
        PrefixCons(b[0], Merge(a, b[1..]), Merge(wholeA, wholeB[1..]), n);
      }
    }
  }

  lemma SliceOfPrefix(items: seq<Item>, start: nat, end: nat)
    requires start <= end
    ensures Slice(items, start, end) == Slice(Prefix(items, end), start, end)
  {
  }

  /** Sorting the first items of two sources that are sorted newest first, and slicing, gives
      the page of the two complete sources. */
  lemma PageOfPrefixes(a: seq<Item>, wholeA: seq<Item>, b: seq<Item>, wholeB: seq<Item>, start: nat, end: nat)
    requires Newest(wholeA) && Newest(wholeB) && start <= end
    requires Enough(a, wholeA, end) && Enough(b, wholeB, end)
    ensures Slice(Sorted(a + b), start, end) == Slice(Sorted(wholeA + wholeB), start, end)
  {
    SortIsMerge(a, b);
    SortIsMerge(wholeA, wholeB);
    MergePrefix(a, wholeA, b, wholeB, end);
    SliceOfPrefix(Merge(a, b), start, end);
    SliceOfPrefix(Merge(wholeA, wholeB), start, end);
  }
}
