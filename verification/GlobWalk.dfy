/** Expanding a pattern: the walk over the directories below its base, which passes over those that
    cannot be read, and the sorted result. It is the sorted list of all files that can be reached
    and match, when these lie below the base. */
module GlobWalk {
  import opened Prelude
  import opened Text
  import opened Glob
  import opened GlobExpand

  // ---- Sorted paths ----

  /** Whether one string comes before another or is equal to it, character by character. */
  predicate NotAfter(a: string, b: string) {
    if |a| == 0 then true
    else if |b| == 0 then false
    else a[0] < b[0] || (a[0] == b[0] && NotAfter(a[1..], b[1..]))
  }

  lemma {:induction false} NotAfterSelf(a: string)
    ensures NotAfter(a, a)
  {
    if |a| > 0 {
      NotAfterSelf(a[1..]);
    }
  }

  lemma {:induction false} NotAfterTotal(a: string, b: string)
    ensures NotAfter(a, b) || NotAfter(b, a)
  {
    if |a| > 0 && |b| > 0 {
      NotAfterTotal(a[1..], b[1..]);
    }
  }

  lemma {:induction false} NotAfterBoth(a: string, b: string)
    requires NotAfter(a, b) && NotAfter(b, a)
    ensures a == b
  {
    if |a| > 0 {
      NotAfterBoth(a[1..], b[1..]);
      assert a == [a[0]] + a[1..] && b == [b[0]] + b[1..];
    }
  }

  lemma {:induction false} NotAfterOn(a: string, b: string, c: string)
    requires NotAfter(a, b) && NotAfter(b, c)
    ensures NotAfter(a, c)
  {
    if |a| > 0 && a[0] == b[0] == c[0] {
      NotAfterOn(a[1..], b[1..], c[1..]);
    }
  }

  /** Two strings are equal up to place `k`, where the first ends or has the smaller character. */
  predicate DiffersFrom(a: string, b: string, k: nat) {
    && k <= |a| && k <= |b| && a[..k] == b[..k]
    && (k == |a| || (k < |b| && a[k] < b[k]))
  }

  lemma DiffersLater(a: string, b: string, k: nat)
    requires |a| > 0 && |b| > 0 && a[0] == b[0]
    ensures DiffersFrom(a, b, k + 1) <==> DiffersFrom(a[1..], b[1..], k)
  {
    if k < |a| && k < |b| {
      assert a[..k + 1] == [a[0]] + a[1..][..k] && b[..k + 1] == [b[0]] + b[1..][..k];
      assert a[..k + 1][1..] == a[1..][..k] && b[..k + 1][1..] == b[1..][..k];
    }
  }

  lemma {:induction false} NotAfterIff(a: string, b: string)
    ensures NotAfter(a, b) <==> exists k :: DiffersFrom(a, b, k)
  {
    if |a| == 0 {
      assert DiffersFrom(a, b, 0);
    } else if |b| > 0 {
      NotAfterIff(a[1..], b[1..]);
      if a[0] < b[0] {
        assert DiffersFrom(a, b, 0);
      } else if k: nat :| a[0] == b[0] && DiffersFrom(a[1..], b[1..], k) {
        DiffersLater(a, b, k);
      }
      if k: nat :| DiffersFrom(a, b, k) && k > 0 {
        assert a[..k][0] == b[..k][0];
        DiffersLater(a, b, k - 1);
      }
    }
  }

  predicate InOrder(paths: seq<string>) {
    forall i, j :: 0 <= i < j < |paths| ==> NotAfter(paths[i], paths[j])
  }

  /** Sorted, and the same strings as often. */
  ghost predicate IsSort(paths: seq<string>, out: seq<string>) {
    InOrder(out) && multiset(out) == multiset(paths)
  }

  function Insert(sorted: seq<string>, x: string): (r: seq<string>) {
    if |sorted| == 0 || NotAfter(sorted[|sorted| - 1], x) then sorted + [x]
    else Insert(sorted[..|sorted| - 1], x) + [sorted[|sorted| - 1]]
  }

  function SortStrings(paths: seq<string>): (r: seq<string>) {
    if |paths| == 0 then [] else Insert(SortStrings(paths[..|paths| - 1]), paths[|paths| - 1])
  }

  lemma {:induction false} InsertHas(sorted: seq<string>, x: string)
    ensures multiset(Insert(sorted, x)) == multiset(sorted) + multiset{x}
  {
    if |sorted| > 0 && !NotAfter(sorted[|sorted| - 1], x) {
      InsertHas(sorted[..|sorted| - 1], x);
      assert sorted == sorted[..|sorted| - 1] + [sorted[|sorted| - 1]];
    }
  }

  lemma SnocInOrder(paths: seq<string>, x: string)
    requires InOrder(paths) && forall p :: p in paths ==> NotAfter(p, x)
    ensures InOrder(paths + [x])
  {
  }

  lemma {:induction false} InsertInOrder(sorted: seq<string>, x: string)
    requires InOrder(sorted)
    ensures InOrder(Insert(sorted, x))
  {
    if |sorted| == 0 {
    } else if NotAfter(sorted[|sorted| - 1], x) {
      var last := sorted[|sorted| - 1];
      forall p | p in sorted ensures NotAfter(p, x) {
        var i :| 0 <= i < |sorted| && sorted[i] == p;
        NotAfterSelf(last);
        NotAfterOn(p, last, x);
      }
      SnocInOrder(sorted, x);
    } else {
      var front, last := sorted[..|sorted| - 1], sorted[|sorted| - 1];
      InsertInOrder(front, x);
      InsertHas(front, x);
      NotAfterTotal(x, last);
      forall p | p in Insert(front, x) ensures NotAfter(p, last) {
        assert p in multiset(Insert(front, x));
        assert p in front || p == x;
      }
      SnocInOrder(Insert(front, x), last);
    }
  }

  lemma {:induction false} SortSorts(paths: seq<string>)
    ensures IsSort(paths, SortStrings(paths))
  {
    if |paths| > 0 {
      var front := paths[..|paths| - 1];
      SortSorts(front);
      InsertInOrder(SortStrings(front), paths[|paths| - 1]);
      InsertHas(SortStrings(front), paths[|paths| - 1]);
      assert paths == front + [paths[|paths| - 1]];
    }
  }

  lemma LastIsLargest(a: seq<string>, b: seq<string>)
    requires |a| > 0 && |b| > 0 && InOrder(a) && InOrder(b) && multiset(a) == multiset(b)
    ensures a[|a| - 1] == b[|b| - 1]
  {
    var x, y := a[|a| - 1], b[|b| - 1];
    assert x in multiset(b) && y in multiset(a);
    var i :| 0 <= i < |b| && b[i] == x;
    var j :| 0 <= j < |a| && a[j] == y;
    NotAfterSelf(x);
    NotAfterSelf(y);
    assert NotAfter(x, y) && NotAfter(y, x);
    NotAfterBoth(x, y);
  }

  lemma FrontHas(a: seq<string>, front: seq<string>, x: string)
    requires a == front + [x]
    ensures multiset(front) == multiset(a) - multiset{x}
  {
  }

  lemma SameSize(a: seq<string>, b: seq<string>)
    requires multiset(a) == multiset(b)
    ensures |a| == |b|
  {
    assert |multiset(a)| == |multiset(b)|;
  }

  /** There is only one way to sort. */
  lemma {:induction false} SortIsUnique(a: seq<string>, b: seq<string>)
    requires InOrder(a) && InOrder(b) && multiset(a) == multiset(b)
    ensures a == b
  {
    SameSize(a, b);
    if |a| > 0 {
      LastIsLargest(a, b);
      var n, x := |a| - 1, a[|a| - 1];
      FrontHas(a, a[..n], x);
      FrontHas(b, b[..n], x);
      SortIsUnique(a[..n], b[..n]);
      assert a == a[..n] + [x] && b == b[..n] + [x];
    }
  }

  // ---- The walk ----

  /** What is in a directory: names with a file, which can also be a link, or a directory, which
      can be read or not. */
  datatype Tree = File | Dir(readable: bool, entries: seq<Entry>)

  datatype Entry = Entry(name: Segment, tree: Tree)

  /** The files that a walk comes to, in its order. */
  function Reached(tree: Tree, path: seq<Segment>): seq<seq<Segment>>
    decreases tree, 0
  {
    match tree
    case File => [path]
    case Dir(readable, entries) => if readable then ReachedIn(entries, path, |entries|) else []
  }

  /** Those in the first `n` entries of a directory. */
  function ReachedIn(entries: seq<Entry>, path: seq<Segment>, n: nat): seq<seq<Segment>>
    requires n <= |entries|
    decreases entries, n
  {
    if n == 0 then []
    else ReachedIn(entries, path, n - 1) + Reached(entries[n - 1].tree, path + [entries[n - 1].name])
  }

  /** Those of some files that match. */
  function Kept(m: SegmentMatch, ps: seq<Segment>, files: seq<seq<Segment>>): (r: seq<seq<Segment>>) {
    if |files| == 0 then []
    else
      var f := files[|files| - 1];
      Kept(m, ps, files[..|files| - 1]) + if MatchSegments(m, ps, f) == Some(true) then [f] else []
  }

  /** The pattern is found to be malformed at none of them. */
  ghost predicate AllDecided(m: SegmentMatch, ps: seq<Segment>, files: seq<seq<Segment>>) {
    forall f :: f in files ==> MatchSegments(m, ps, f).Some?
  }

  lemma {:induction false} KeptConcat(m: SegmentMatch, ps: seq<Segment>, a: seq<seq<Segment>>, b: seq<seq<Segment>>)
    ensures Kept(m, ps, a + b) == Kept(m, ps, a) + Kept(m, ps, b)
  {
    if |b| == 0 {
      assert a + b == a;
    } else {
      KeptConcat(m, ps, a, b[..|b| - 1]);
      assert (a + b)[..|a| + |b| - 1] == a + b[..|b| - 1];
    }
  }

  lemma {:induction false} KeptIff(m: SegmentMatch, ps: seq<Segment>, files: seq<seq<Segment>>)
    ensures forall f :: f in Kept(m, ps, files) <==> f in files && MatchSegments(m, ps, f) == Some(true)
  {
    if |files| > 0 {
      KeptIff(m, ps, files[..|files| - 1]);
      assert files == files[..|files| - 1] + [files[|files| - 1]];
    }
  }

  lemma KeptOne(m: SegmentMatch, ps: seq<Segment>, path: seq<Segment>, files: seq<seq<Segment>>)
    requires files == [path]
    ensures Kept(m, ps, files) == if MatchSegments(m, ps, path) == Some(true) then files else []
  {
    assert |files[..0]| == 0;
  }

  lemma DecidedBoth(m: SegmentMatch, ps: seq<Segment>, a: seq<seq<Segment>>, b: seq<seq<Segment>>)
    ensures AllDecided(m, ps, a + b) <==> AllDecided(m, ps, a) && AllDecided(m, ps, b)
  {
    assert forall f :: f in a + b <==> f in a || f in b;
  }

  /** What walking a tree adds to the matches; None when the pattern is found to be malformed. */
  ghost predicate Walks(m: SegmentMatch, ps: seq<Segment>, files: seq<seq<Segment>>, matches: seq<seq<Segment>>,
                        r: Option<seq<seq<Segment>>>) {
    && (r.Some? <==> AllDecided(m, ps, files))
    && (r.Some? ==> r.value == matches + Kept(m, ps, files))
  }

  method Visit(m: SegmentMatch, ps: seq<Segment>, path: seq<Segment>, matches: seq<seq<Segment>>)
    returns (r: Option<seq<seq<Segment>>>)
    ensures Walks(m, ps, [path], matches, r)
  {
    KeptOne(m, ps, path, [path]);
    assert path in [path];
    var matched := Match(m, ps, path);
    if matched.None? {
      return None;
    }
    r := Some(if matched.value then matches + [path] else matches);
  }

  lemma WalksOn(m: SegmentMatch, ps: seq<Segment>, a: seq<seq<Segment>>, b: seq<seq<Segment>>,
                matches: seq<seq<Segment>>, mid: seq<seq<Segment>>, r: Option<seq<seq<Segment>>>)
    requires Walks(m, ps, a, matches, Some(mid)) && Walks(m, ps, b, mid, r)
    ensures Walks(m, ps, a + b, matches, r)
  {
    DecidedBoth(m, ps, a, b);
    KeptConcat(m, ps, a, b);
  }

  /** The directories of the tree in turn, and in them the entries; one that cannot be read is
      passed over. */
  method Walk(m: SegmentMatch, ps: seq<Segment>, tree: Tree, path: seq<Segment>, matches: seq<seq<Segment>>)
    returns (r: Option<seq<seq<Segment>>>)
    ensures Walks(m, ps, Reached(tree, path), matches, r)
    decreases tree, 0
  {
    match tree
    case File => r := Visit(m, ps, path, matches);
    case Dir(readable, entries) =>
      if !readable {
        return Some(matches);
      }
      r := WalkEntries(m, ps, entries, path, matches);
  }

  lemma WalkStops(m: SegmentMatch, ps: seq<Segment>, entries: seq<Entry>, path: seq<Segment>, n: nat,
                  matches: seq<seq<Segment>>)
    requires n <= |entries| && Walks(m, ps, ReachedIn(entries, path, n), matches, None)
    ensures Walks(m, ps, ReachedIn(entries, path, |entries|), matches, None)
    decreases |entries| - n
  {
    if n < |entries| {
      DecidedBoth(m, ps, ReachedIn(entries, path, n), Reached(entries[n].tree, path + [entries[n].name]));
      WalkStops(m, ps, entries, path, n + 1, matches);
    }
  }

  method WalkEntries(m: SegmentMatch, ps: seq<Segment>, entries: seq<Entry>, path: seq<Segment>,
                     matches: seq<seq<Segment>>)
    returns (r: Option<seq<seq<Segment>>>)
    ensures Walks(m, ps, ReachedIn(entries, path, |entries|), matches, r)
    decreases entries, |entries| + 1
  {
    r := Some(matches);
    for i := 0 to |entries|
      invariant r.Some? && Walks(m, ps, ReachedIn(entries, path, i), matches, r)
    {
      var mid := r.value;
      r := Walk(m, ps, entries[i].tree, path + [entries[i].name], mid);
      WalksOn(m, ps, ReachedIn(entries, path, i), Reached(entries[i].tree, path + [entries[i].name]), matches, mid, r);
      if r.None? {
        WalkStops(m, ps, entries, path, i + 1, matches);
        return;
      }
    }
  }

  // ---- Expansion ----

  /** What looking up the base gives. */
  datatype Stat = Missing | Failed | Found(tree: Tree)

  function Printed(absolute: bool, path: seq<Segment>): string {
    (if absolute then "/" else "") + Join(path, "/")
  }

  /** Names as directories have them. */
  predicate AreNames(path: seq<Segment>) {
    |path| > 0 && path != ["."] && forall i :: 0 <= i < |path| ==> path[i] != "" && '/' !in path[i]
  }

  lemma {:induction false} JoinEnds(path: seq<Segment>)
    requires |path| > 0 && forall i :: 0 <= i < |path| ==> path[i] != "" && '/' !in path[i]
    ensures var s, last := Join(path, "/"), path[|path| - 1];
      s != "" && s[0] == path[0][0] && s[|s| - 1] == last[|last| - 1]
  {
    if |path| > 1 {
      JoinEnds(path[..|path| - 1]);
    }
  }

  lemma TrimsNothing(s: string, t: string)
    requires s != "" && s[0] != '/' && s[|s| - 1] != '/'
    ensures TrimSlashes(s) == s && (t == "/" + s ==> TrimSlashes(t) == s)
    ensures !HasPrefix(s, "/") && HasPrefix("/" + s, "/")
  {
    if t == "/" + s {
      assert t[0] == '/' && t[1..] == s;
    }
  }

  /** The trimmed form of a printed path is its joined names. */
  lemma PrintedIs(absolute: bool, path: seq<Segment>, s: string)
    requires AreNames(path) && s == Join(path, "/")
    ensures TrimSlashes(Printed(absolute, path)) == s && s != ""
    ensures HasPrefix(Printed(absolute, path), "/") <==> absolute
  {
    JoinEnds(path);
    var first, last := path[0], path[|path| - 1];
    assert first[0] in first && last[|last| - 1] in last;
    TrimsNothing(s, "/" + s);
    assert Printed(absolute, path) == if absolute then "/" + s else "" + s;
    assert "" + s == s;
  }

  lemma SplitsBack(path: seq<Segment>, s: string)
    requires AreNames(path) && s == Join(path, "/")
    ensures Split(s, '/') == path && s != "."
  {
    SplitOfJoin(path, '/');
    if s == "." {
      SplitWhole(s, '/');
    }
  }

  /** A printed path is read back as it was. */
  lemma PrintedReadsBack(absolute: bool, path: seq<Segment>)
    requires AreNames(path)
    ensures SplitPath(Printed(absolute, path)) == Path(absolute, path)
  {
    var s := Join(path, "/");
    PrintedIs(absolute, path, s);
    SplitsBack(path, s);
  }

  function PrintedAll(absolute: bool, paths: seq<seq<Segment>>): (r: seq<string>)
    ensures |r| == |paths| && forall i :: 0 <= i < |r| ==> r[i] == Printed(absolute, paths[i])
  {
    seq(|paths|, i requires 0 <= i < |paths| => Printed(absolute, paths[i]))
  }

  /** The files found for a pattern with recursive wildcards, when `stat` is what there is at its
      base: none without a base, all that can be reached below it and match, sorted; and None when
      the base cannot be looked up, or the pattern is found to be malformed. */
  method Expand(m: SegmentMatch, absolute: bool, ps: seq<Segment>, stat: Stat) returns (r: Option<seq<string>>)
    ensures stat.Missing? ==> r.Some? && |r.value| == 0
    ensures stat.Failed? ==> r.None?
    ensures stat.Found? ==>
      var files := Reached(stat.tree, BaseSegments(ps));
      && (r.Some? <==> AllDecided(m, ps, files))
      && (r.Some? ==> IsSort(PrintedAll(absolute, Kept(m, ps, files)), r.value))
  {
    var base := RecursiveBaseDir(ps);
    match stat
    case Missing => r := Some([]);
    case Failed => r := None;
    case Found(tree) =>
      var matches := Walk(m, ps, tree, base, []);
      if matches.None? {
        return None;
      }
      assert matches.value == Kept(m, ps, Reached(tree, base));
      SortSorts(PrintedAll(absolute, matches.value));
      r := Some(SortStrings(PrintedAll(absolute, matches.value)));
  }

  // ---- Nothing is missed ----

  /** The entry of this name. */
  function Named(entries: seq<Entry>, name: Segment, n: nat): (r: Option<Tree>)
    requires n <= |entries|
    ensures r.Some? ==> exists i :: 0 <= i < n && entries[i].name == name && entries[i].tree == r.value
    ensures r.None? ==> forall i :: 0 <= i < n ==> entries[i].name != name
  {
    if n == 0 then None
    else if entries[n - 1].name == name then Some(entries[n - 1].tree)
    else Named(entries, name, n - 1)
  }

  /** Looking up a path. */
  function StatAt(tree: Tree, path: seq<Segment>): Stat
    decreases |path|
  {
    if |path| == 0 then Found(tree)
    else if tree.File? || !tree.readable then Failed
    else
      var next := Named(tree.entries, path[0], |tree.entries|);
      if next.None? then Missing else StatAt(next.value, path[1..])
  }

  /** No directory has two entries of one name. */
  ghost predicate Tidy(tree: Tree)
    decreases tree
  {
    tree.Dir? ==>
      && (forall i, j :: 0 <= i < j < |tree.entries| ==> tree.entries[i].name != tree.entries[j].name)
      && forall i :: 0 <= i < |tree.entries| ==> Tidy(tree.entries[i].tree)
  }

  lemma {:induction false} ReachedInIff(entries: seq<Entry>, path: seq<Segment>, n: nat, f: seq<Segment>)
    requires n <= |entries|
    ensures f in ReachedIn(entries, path, n) <==>
      exists i :: 0 <= i < n && f in Reached(entries[i].tree, path + [entries[i].name])
  {
    if n > 0 {
      ReachedInIff(entries, path, n - 1, f);
    }
  }

  /** A walk stays below where it starts. */
  lemma {:induction false} ReachedBelow(tree: Tree, path: seq<Segment>, f: seq<Segment>)
    requires f in Reached(tree, path)
    ensures path <= f
    decreases tree
  {
    if tree.Dir? {
      ReachedInIff(tree.entries, path, |tree.entries|, f);
      var i :| 0 <= i < |tree.entries| && f in Reached(tree.entries[i].tree, path + [tree.entries[i].name]);
      ReachedBelow(tree.entries[i].tree, path + [tree.entries[i].name], f);
    }
  }

  predicate Distinct(files: seq<seq<Segment>>) {
    forall i, j :: 0 <= i < j < |files| ==> files[i] != files[j]
  }

  lemma DistinctBoth(a: seq<seq<Segment>>, b: seq<seq<Segment>>)
    requires Distinct(a) && Distinct(b) && forall f :: f in a ==> f !in b
    ensures Distinct(a + b)
  {
    forall i, j | 0 <= i < j < |a + b| ensures (a + b)[i] != (a + b)[j] {
      if i < |a| <= j {
        assert a[i] in a && b[j - |a|] in b;
      }
    }
  }

  lemma OtherEntries(entries: seq<Entry>, path: seq<Segment>, n: nat, f: seq<Segment>)
    requires n < |entries| && (forall i, j :: 0 <= i < j < |entries| ==> entries[i].name != entries[j].name)
    requires f in ReachedIn(entries, path, n)
    ensures f !in Reached(entries[n].tree, path + [entries[n].name])
  {
    ReachedInIff(entries, path, n, f);
    var i :| 0 <= i < n && f in Reached(entries[i].tree, path + [entries[i].name]);
    ReachedBelow(entries[i].tree, path + [entries[i].name], f);
    assert f[|path|] == entries[i].name;
    if f in Reached(entries[n].tree, path + [entries[n].name]) {
      ReachedBelow(entries[n].tree, path + [entries[n].name], f);
    }
  }

  /** A walk comes to each file once. */
  lemma {:induction false} ReachedOnce(tree: Tree, path: seq<Segment>)
    requires Tidy(tree)
    ensures Distinct(Reached(tree, path))
    decreases tree, 0
  {
    if tree.Dir? && tree.readable {
      ReachedInOnce(tree.entries, path, |tree.entries|);
    }
  }

  lemma {:induction false} ReachedInOnce(entries: seq<Entry>, path: seq<Segment>, n: nat)
    requires n <= |entries| && (forall i, j :: 0 <= i < j < |entries| ==> entries[i].name != entries[j].name)
    requires forall i :: 0 <= i < |entries| ==> Tidy(entries[i].tree)
    ensures Distinct(ReachedIn(entries, path, n))
    decreases entries, n
  {
    if n > 0 {
      ReachedInOnce(entries, path, n - 1);
      ReachedOnce(entries[n - 1].tree, path + [entries[n - 1].name]);
      var before, last := ReachedIn(entries, path, n - 1), Reached(entries[n - 1].tree, path + [entries[n - 1].name]);
      forall f | f in before ensures f !in last {
        OtherEntries(entries, path, n - 1, f);
      }
      DistinctBoth(before, last);
    }
  }

  /** The files found from a base on. */
  function FilesAt(tree: Tree, path: seq<Segment>, base: seq<Segment>): seq<seq<Segment>> {
    var stat := StatAt(tree, base);
    if stat.Found? then Reached(stat.tree, path + base) else []
  }

  lemma {:induction false} StepDown(tree: Tree, path: seq<Segment>, name: Segment, f: seq<Segment>)
    requires Tidy(tree) && tree.Dir? && tree.readable
    ensures var next := Named(tree.entries, name, |tree.entries|);
      f in Reached(tree, path) && path + [name] <= f <==> next.Some? && f in Reached(next.value, path + [name])
  {
    var next := Named(tree.entries, name, |tree.entries|);
    ReachedInIff(tree.entries, path, |tree.entries|, f);
    if f in Reached(tree, path) && path + [name] <= f {
      var i :| 0 <= i < |tree.entries| && f in Reached(tree.entries[i].tree, path + [tree.entries[i].name]);
      ReachedBelow(tree.entries[i].tree, path + [tree.entries[i].name], f);
      assert tree.entries[i].name == f[|path|] == name;
    } else if next.Some? && f in Reached(next.value, path + [name]) {
      ReachedBelow(next.value, path + [name], f);
    }
  }

  /** Below the base are the reachable files whose paths begin with it. */
  lemma {:induction false} FilesAtIff(tree: Tree, path: seq<Segment>, base: seq<Segment>, f: seq<Segment>)
    requires Tidy(tree)
    ensures f in FilesAt(tree, path, base) <==> f in Reached(tree, path) && path + base <= f
    decreases |base|
  {
    if |base| == 0 {
      assert path + base == path;
      if f in Reached(tree, path) {
        ReachedBelow(tree, path, f);
      }
    } else if tree.Dir? && tree.readable {
      var next := Named(tree.entries, base[0], |tree.entries|);
      assert path + base == (path + [base[0]]) + base[1..];
      StepDown(tree, path, base[0], f);
      if next.Some? {
        FilesAtIff(next.value, path + [base[0]], base[1..], f);
      }
    }
  }

  /** The files found are exactly those that can be reached from the root and match, when matches
      lie below the base. */
  lemma ExpansionMissesNothing(m: SegmentMatch, ps: seq<Segment>, root: Tree, f: seq<Segment>)
    requires Tidy(root) && BelowBase(m, ps)
    ensures f in Kept(m, ps, FilesAt(root, [], BaseSegments(ps))) <==>
      f in Reached(root, []) && MatchSegments(m, ps, f) == Some(true)
  {
    var base := BaseSegments(ps);
    KeptIff(m, ps, FilesAt(root, [], base));
    FilesAtIff(root, [], base, f);
    assert [] + base == base;
  }
}
