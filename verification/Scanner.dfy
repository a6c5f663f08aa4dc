/** The scan loop of one file source: round-robin over the paths with a limit for each read,
    until the batch is full or a whole round brought nothing. */
module Scanner {
  import opened Prelude
  import opened Scan

  /** What the scan sees: the files, which do not change during it, and the offsets the
      checkpoint store gives for paths not yet known; None is an error. */
  datatype Outside = Outside(files: string -> File, checkpoint: string -> Option<int>)

  /** The stored offset of a path; an error of the store counts as zero. */
  function Stored(out: Outside, offsets: map<string, int>, path: string): int {
    if path in offsets then offsets[path]
    else match out.checkpoint(path)
      case Some(offset) => offset
      case None => 0
  }

  /** Whether reads of the path succeed. A negative offset cannot be sought. */
  predicate Readable(out: Outside, offsets: map<string, int>, path: string) {
    out.files(path).Content? && Stored(out, offsets, path) >= 0
  }

  /** Where the reading of a readable path starts. */
  function Start(out: Outside, offsets: map<string, int>, path: string): (from: nat)
    requires Readable(out, offsets, path)
    ensures from <= |out.files(path).bytes|
  {
    Begin(out.files(path).bytes, Stored(out, offsets, path))
  }

  function OfPath(batch: seq<Record>, path: string): (r: seq<Record>) {
    if |batch| == 0 then []
    else OfPath(batch[..|batch| - 1], path) + if batch[|batch| - 1].path == path then [batch[|batch| - 1]] else []
  }

  /** Nothing is left to read: at the end of the file, or not readable. */
  predicate AtEnd(out: Outside, offsets: map<string, int>, latest: map<string, int>, path: string) {
    Readable(out, offsets, path) ==>
      (if path in latest then latest[path] else Start(out, offsets, path)) == |out.files(path).bytes|
  }

  /** The records of a path are exactly the lines between its old and its new offset. */
  ghost predicate GapFree(out: Outside, offsets: map<string, int>, latest: map<string, int>, batch: seq<Record>,
                          path: string) {
    if path in latest then
      && Readable(out, offsets, path)
      && var bytes := out.files(path).bytes; var from := Start(out, offsets, path);
         && from < latest[path] <= |bytes| && Reaches(bytes, from, latest[path])
         && OfPath(batch, path) == Lines(path, bytes, from, latest[path])
    else OfPath(batch, path) == []
  }

  // ---- Facts the loop uses ----

  lemma {:induction false} OfPathConcat(a: seq<Record>, b: seq<Record>, path: string)
    ensures OfPath(a + b, path) == OfPath(a, path) + OfPath(b, path)
  {
    if |b| == 0 {
      assert a + b == a;
    } else {
      OfPathConcat(a, b[..|b| - 1], path);
      assert (a + b)[..|a| + |b| - 1] == a + b[..|b| - 1];
    }
  }

  lemma {:induction false} OfPathAll(batch: seq<Record>, path: string)
    requires forall r :: r in batch ==> r.path == path
    ensures OfPath(batch, path) == batch
  {
    if |batch| > 0 {
      var before, last := batch[..|batch| - 1], batch[|batch| - 1];
      assert last in batch;
      OfPathAll(before, path);
      assert batch == before + [last];
    }
  }

  lemma {:induction false} OfPathNone(batch: seq<Record>, path: string)
    requires forall r :: r in batch ==> r.path != path
    ensures OfPath(batch, path) == []
  {
    if |batch| > 0 {
      OfPathNone(batch[..|batch| - 1], path);
    }
  }

  lemma {:induction false} LinesHavePath(path: string, bytes: seq<Byte>, from: nat, to: nat)
    requires to <= |bytes| && Reaches(bytes, from, to)
    ensures forall r :: r in Lines(path, bytes, from, to) ==> r.path == path
    decreases |bytes| - from
  {
    if from < to {
      LinesHavePath(path, bytes, LineEnd(bytes, from), to);
    }
  }

  /** Adding the lines of one read keeps every path gap-free. */
  lemma ReadKeepsGapFree(out: Outside, offsets: map<string, int>, latest: map<string, int>, batch: seq<Record>,
                         path: string, from: nat, to: nat, q: string)
    requires GapFree(out, offsets, latest, batch, q) && GapFree(out, offsets, latest, batch, path)
    requires Readable(out, offsets, path)
    requires from == if path in latest then latest[path] else Start(out, offsets, path)
    requires from < to <= |out.files(path).bytes| && Reaches(out.files(path).bytes, from, to)
    ensures GapFree(out, offsets, latest[path := to], batch + Lines(path, out.files(path).bytes, from, to), q)
  {
    var bytes := out.files(path).bytes;
    var more := Lines(path, bytes, from, to);
    LinesHavePath(path, bytes, from, to);
    OfPathConcat(batch, more, q);
    if q == path {
      OfPathAll(more, path);
      LinesSplit(path, bytes, Start(out, offsets, path), from, to);
    } else {
      OfPathNone(more, q);
      assert OfPath(batch, q) + [] == OfPath(batch, q);
    }
  }

  /** The index visited `k` visits ago, when `next` comes next. */
  function Back(next: nat, k: nat, n: nat): (i: nat)
    requires next < n && 1 <= k <= n
    ensures i < n
  {
    if k <= next then next - k else next + n - k
  }

  lemma NextIs(next: nat, n: nat)
    requires next < n
    ensures (next + 1) % n == if next + 1 == n then 0 else next + 1
  {
  }

  /** One more visit moves every earlier one back by one. */
  lemma BackShifts(next: nat, next': nat, k: nat, n: nat)
    requires next < n && next' == (if next + 1 == n then 0 else next + 1) && 1 <= k <= n
    ensures Back(next', k, n) == if k == 1 then next else Back(next, k - 1, n)
  {
  }

  /** Every index was visited within the last `n` visits. */
  lemma BackCovers(next: nat, n: nat, i: nat) returns (k: nat)
    requires next < n && i < n
    ensures 1 <= k <= n && Back(next, k, n) == i
  {
    k := if i < next then next - i else next + n - i;
  }

  /** The last `count` visits, or all paths if there were more, satisfied `p`. */
  ghost predicate LastVisits(paths: seq<string>, next: nat, count: nat, p: string -> bool)
    requires next < |paths|
  {
    forall k {:trigger Back(next, k, |paths|)} :: 1 <= k <= count && k <= |paths| ==> p(paths[Back(next, k, |paths|)])
  }

  lemma VisitOne(paths: seq<string>, next: nat, next': nat, count: nat, p: string -> bool, q: string -> bool)
    requires next < |paths| && next' == if next + 1 == |paths| then 0 else next + 1
    requires LastVisits(paths, next, count, p) && (forall x :: p(x) ==> q(x)) && q(paths[next])
    ensures LastVisits(paths, next', count + 1, q)
  {
    forall k | 1 <= k <= count + 1 && k <= |paths| ensures q(paths[Back(next', k, |paths|)]) {
      BackShifts(next, next', k, |paths|);
    }
  }

  lemma AllVisited(paths: seq<string>, next: nat, count: nat, p: string -> bool, path: string)
    requires next < |paths| <= count && LastVisits(paths, next, count, p) && path in paths
    ensures p(path)
  {
    var i :| 0 <= i < |paths| && paths[i] == path;
    var k := BackCovers(next, |paths|, i);
    assert p(paths[Back(next, k, |paths|)]);
  }

  lemma OneMoreLine(path: string, bytes: seq<Byte>, start: nat, current: nat)
    requires current < |bytes| && Reaches(bytes, start, current)
    ensures var end := LineEnd(bytes, current);
      && Reaches(bytes, start, end)
      && Lines(path, bytes, start, end) == Lines(path, bytes, start, current) + [RecordAt(path, bytes, current)]
  {
    var end := LineEnd(bytes, current);
    ReachesNext(bytes, current);
    LinesSplit(path, bytes, start, current, end);
    assert Lines(path, bytes, end, end) == [];
  }

  method ReadLines(path: string, bytes: seq<Byte>, start: nat, max: nat) returns (records: seq<Record>, current: nat)
    requires start <= |bytes|
    ensures ReadsTo(path, bytes, start, max, records, current)
  {
    records, current := [], start;
    while |records| < max
      invariant start <= current <= |bytes| && Reaches(bytes, start, current)
      invariant records == Lines(path, bytes, start, current) && |records| <= max
      decreases |bytes| - current, max - |records|
    {
      var end := LineEnd(bytes, current);
      if end > current {
        var line := bytes[current..end];
        OneMoreLine(path, bytes, start, current);
        records := records + [Record(path, TrimEnd(line), end)];
      }
      var eof := end == current || bytes[end - 1] != NEWLINE;
      current := end;
      if eof {
        break;
      }
    }
  }

  /** Reads at most `max` lines of a path from an offset; None when reading fails. */
  method ReadFileIncremental(path: string, file: File, offset: int, max: int) returns (r: Option<(seq<Record>, int)>)
    ensures max <= 0 ==> r == Some(([], offset))
    ensures max > 0 ==> (r.Some? <==> file.Content? && offset >= 0)
    ensures max > 0 && r.Some? && offset <= |file.bytes| ==>
      ReadsTo(path, file.bytes, offset, max, r.value.0, r.value.1)
    ensures max > 0 && r.Some? && offset > |file.bytes| ==> ReadsTo(path, file.bytes, 0, max, r.value.0, r.value.1)
  {
    if max <= 0 {
      return Some(([], offset));
    }
    if file.Unreadable? {
      return None;
    }
    var bytes := file.bytes;
    var start := if |bytes| < offset then 0 else offset;
    if start < 0 {
      return None;
    }
    var records, current := ReadLines(path, bytes, start, max);
    r := Some((records, current));
  }

  /** What a whole scan promises, for files that do not change during it. */
  ghost predicate Scanned(out: Outside, offsets: map<string, int>, paths: seq<string>, batchSize: int, limit: int,
                          batch: seq<Record>, latest: map<string, int>) {
    && |batch| <= batchSize
    && (forall path :: GapFree(out, offsets, latest, batch, path))
    && (|batch| < batchSize ==> forall path :: path in paths ==> AtEnd(out, offsets, latest, path))
    && (batchSize > limit * (|paths| - 1) ==>
          forall path :: path in paths && !AtEnd(out, offsets, map[], path) ==> path in latest)
  }

  /** When there is nothing to read: the file cannot be read, was read to its end, or is empty. A
      file that shrank below its offset and is not empty has all its bytes to read. */
  lemma NothingToReadIff(out: Outside, offsets: map<string, int>, path: string)
    ensures var stored := Stored(out, offsets, path);
      AtEnd(out, offsets, map[], path) <==>
        out.files(path).Unreadable? || stored < 0 || stored == |out.files(path).bytes| || |out.files(path).bytes| == 0
  {
  }

  /** What a scan gives of a file, read from `from`: exactly its lines up to the new offset. */
  predicate Gives(batch: seq<Record>, latest: map<string, int>, path: string, bytes: seq<Byte>, from: nat) {
    && path in latest && from < latest[path] <= |bytes| && Reaches(bytes, from, latest[path])
    && OfPath(batch, path) == Lines(path, bytes, from, latest[path])
  }

  /** A file that shrank below its stored offset is read from its beginning, any other one from
      exactly that offset; when the batch is not full, to its end. */
  lemma ScanStartsOver(out: Outside, offsets: map<string, int>, paths: seq<string>, batchSize: int, limit: int,
                       batch: seq<Record>, latest: map<string, int>, path: string, bytes: seq<Byte>, stored: nat)
    requires Scanned(out, offsets, paths, batchSize, limit, batch, latest)
    requires out.files(path) == Content(bytes) && stored == Stored(out, offsets, path)
    ensures path in latest && |bytes| < stored ==> Gives(batch, latest, path, bytes, 0)
    ensures path in latest && stored <= |bytes| ==> Gives(batch, latest, path, bytes, stored)
    ensures path !in latest ==> |OfPath(batch, path)| == 0
    ensures path in paths && |batch| < batchSize && |bytes| > 0 && stored != |bytes| ==>
      path in latest && latest[path] == |bytes|
  {
    assert GapFree(out, offsets, latest, batch, path);
    if path in paths && |batch| < batchSize {
      assert AtEnd(out, offsets, latest, path);
    }
  }

  function Keep(batch: seq<Record>, p: Record -> bool): (r: seq<Record>) {
    if |batch| == 0 then []
    else Keep(batch[..|batch| - 1], p) + if p(batch[|batch| - 1]) then [batch[|batch| - 1]] else []
  }

  /** What a scan hands over: the critical lines, then the others; neither when empty. */
  function Parts(batch: seq<Record>, critical: Record -> bool): (r: seq<seq<Record>>) {
    var first, rest := Keep(batch, critical), Keep(batch, r => !critical(r));
    (if |first| == 0 then [] else [first]) + (if |rest| == 0 then [] else [rest])
  }

  /** Both parts together hold each line of the batch exactly as often as the batch does. */
  lemma {:induction false} PartsAreTheBatch(batch: seq<Record>, p: Record -> bool, q: Record -> bool, x: Record)
    requires forall r :: q(r) == !p(r)
    ensures multiset(Keep(batch, p))[x] + multiset(Keep(batch, q))[x] == multiset(batch)[x]
  {
    if |batch| > 0 {
      var front, last := batch[..|batch| - 1], batch[|batch| - 1];
      PartsAreTheBatch(front, p, q, x);
      assert batch == front + [last];
      if p(last) {
        assert Keep(batch, p) == Keep(front, p) + [last] && Keep(batch, q) == Keep(front, q) + [];
      } else {
        assert Keep(batch, q) == Keep(front, q) + [last] && Keep(batch, p) == Keep(front, p) + [];
      }
    }
  }

  /** Kept are exactly the lines at the places where the test holds, in their order. */
  lemma {:induction false} KeepsOrder(batch: seq<Record>, p: Record -> bool) returns (places: seq<nat>)
    ensures Picks(batch, p, places, Keep(batch, p))
  {
    if |batch| == 0 {
      places := [];
      PicksNone(batch, p, places, Keep(batch, p));
    } else {
      var front, last := batch[..|batch| - 1], batch[|batch| - 1];
      places := KeepsOrder(front, p);
      PicksSnoc(front, last, p, places, Keep(front, p));
      assert batch == front + [last];
      places := if p(last) then places + [|front|] else places;
    }
  }

  lemma {:induction false} KeepOnly(batch: seq<Record>, p: Record -> bool)
    ensures forall r :: r in Keep(batch, p) ==> p(r)
  {
    if |batch| > 0 {
      KeepOnly(batch[..|batch| - 1], p);
    }
  }

  predicate AllAre(batch: seq<Record>, critical: Record -> bool, yes: bool) {
    forall r :: r in batch ==> critical(r) == yes
  }

  /** What is handed over: the critical lines first, then the others, neither when there are none,
      and together each line as often as it was read. */
  lemma HandedOver(batch: seq<Record>, critical: Record -> bool) returns (first: seq<Record>, rest: seq<Record>)
    ensures AllAre(first, critical, true) && AllAre(rest, critical, false)
    ensures multiset(first) + multiset(rest) == multiset(batch)
    ensures var parts := Parts(batch, critical);
      if |first| > 0 && |rest| > 0 then parts == [first, rest]
      else if |first| > 0 then parts == [first]
      else if |rest| > 0 then parts == [rest]
      else |parts| == 0
  {
    var other := (r: Record) => !critical(r);
    first, rest := Keep(batch, critical), Keep(batch, other);
    KeepOnly(batch, critical);
    KeepOnly(batch, other);
    forall x ensures (multiset(first) + multiset(rest))[x] == multiset(batch)[x] {
      PartsAreTheBatch(batch, critical, other, x);
    }
    assert Parts(batch, critical) ==
      (if |first| == 0 then [] else [first]) + (if |rest| == 0 then [] else [rest]);
  }

  lemma NothingRead(out: Outside, offsets: map<string, int>, batch: seq<Record>, latest: map<string, int>)
    requires |batch| == 0 && forall q :: GapFree(out, offsets, latest, batch, q)
    ensures latest == map[]
  {
    forall q ensures q !in latest {
      assert GapFree(out, offsets, latest, batch, q);
    }
  }

  /** A path with unread data has been read from. */
  predicate Served(out: Outside, offsets: map<string, int>, latest: map<string, int>, path: string) {
    AtEnd(out, offsets, map[], path) || path in latest
  }

  lemma IdleVisit(out: Outside, offsets: map<string, int>, latest: map<string, int>, path: string)
    requires AtEnd(out, offsets, latest, path)
    ensures Served(out, offsets, latest, path)
  {
  }

  lemma LimitTimes(limit: int, v: nat, w: nat)
    requires limit >= 0 && v <= w
    ensures limit * v <= limit * w && limit * (v + 1) == limit * v + limit
  {
    assert limit * w == limit * v + limit * (w - v);
  }

  /** What the loop keeps: no gaps, the last `idle` visits found the end of their paths, all
      `visits` served theirs, and each brought at most `limit` records. */
  ghost predicate Round(out: Outside, offsets: map<string, int>, paths: seq<string>, limit: int, batch: seq<Record>,
                        latest: map<string, int>, next: nat, idle: nat, visits: nat)
    requires next < |paths|
  {
    && idle <= visits && |batch| <= limit * visits
    && (forall q :: GapFree(out, offsets, latest, batch, q))
    && LastVisits(paths, next, idle, q => AtEnd(out, offsets, latest, q))
    && LastVisits(paths, next, visits, q => Served(out, offsets, latest, q))
  }

  /** Where this scan reads a path from next. */
  function ReadFrom(out: Outside, offsets: map<string, int>, latest: map<string, int>, path: string): int
    requires Readable(out, offsets, path)
  {
    if path in latest then latest[path] else Start(out, offsets, path)
  }

  /** ReadKeepsGapFree for every path at once. */
  lemma ReadKept(out: Outside, offsets: map<string, int>, latest: map<string, int>, batch: seq<Record>,
                 path: string, to: int)
    requires forall q :: GapFree(out, offsets, latest, batch, q)
    requires Readable(out, offsets, path) && ReadFrom(out, offsets, latest, path) >= 0
    requires var bytes := out.files(path).bytes; var from := ReadFrom(out, offsets, latest, path);
      from < to <= |bytes| && Reaches(bytes, from, to)
    ensures var latest' := latest[path := to];
      var batch' := batch + Lines(path, out.files(path).bytes, ReadFrom(out, offsets, latest, path), to);
      forall q :: GapFree(out, offsets, latest', batch', q)
  {
    var from := ReadFrom(out, offsets, latest, path);
    var batch' := batch + Lines(path, out.files(path).bytes, from, to);
    var latest' := latest[path := to];
    forall q ensures GapFree(out, offsets, latest', batch', q) {
      assert GapFree(out, offsets, latest, batch, q) && GapFree(out, offsets, latest, batch, path);
      ReadKeepsGapFree(out, offsets, latest, batch, path, from, to, q);
    }
  }

  lemma IdleTurn(out: Outside, offsets: map<string, int>, paths: seq<string>, limit: int, batch: seq<Record>,
                 latest: map<string, int>, next: nat, idle: nat, visits: nat, next': nat)
    requires next < |paths| && limit >= 0 && Round(out, offsets, paths, limit, batch, latest, next, idle, visits)
    requires next' == (if next + 1 == |paths| then 0 else next + 1) && AtEnd(out, offsets, latest, paths[next])
    ensures Round(out, offsets, paths, limit, batch, latest, next', idle + 1, visits + 1)
  {
    LimitTimes(limit, visits, visits + 1);
    IdleVisit(out, offsets, latest, paths[next]);
    VisitOne(paths, next, next', idle, q => AtEnd(out, offsets, latest, q), q => AtEnd(out, offsets, latest, q));
    VisitOne(paths, next, next', visits, q => Served(out, offsets, latest, q), q => Served(out, offsets, latest, q));
  }

  lemma ReadTurn(out: Outside, offsets: map<string, int>, paths: seq<string>, limit: int, batch: seq<Record>,
                 latest: map<string, int>, next: nat, idle: nat, visits: nat, next': nat, to: int)
    requires next < |paths| && limit >= 0 && Round(out, offsets, paths, limit, batch, latest, next, idle, visits)
    requires next' == (if next + 1 == |paths| then 0 else next + 1) && Readable(out, offsets, paths[next])
    requires ReadFrom(out, offsets, latest, paths[next]) >= 0
    requires var from := ReadFrom(out, offsets, latest, paths[next]); var bytes := out.files(paths[next]).bytes;
      from < to <= |bytes| && Reaches(bytes, from, to) && |Lines(paths[next], bytes, from, to)| <= limit
    ensures var more :=
        Lines(paths[next], out.files(paths[next]).bytes, ReadFrom(out, offsets, latest, paths[next]), to);
      Round(out, offsets, paths, limit, batch + more, latest[paths[next] := to], next', 0, visits + 1)
  {
    var path := paths[next];
    var latest' := latest[path := to];
    LimitTimes(limit, visits, visits + 1);
    ReadKept(out, offsets, latest, batch, path, to);
    VisitOne(paths, next, next', visits, q => Served(out, offsets, latest, q), q => Served(out, offsets, latest', q));
  }

  /** A scan that ends early has seen every path at its end; one that ends at all has served
      every path when the batch is too large for the others to fill it in one round. */
  lemma ScanEnds(out: Outside, offsets: map<string, int>, paths: seq<string>, batchSize: int, limit: int,
                 batch: seq<Record>, latest: map<string, int>, next: nat, idle: nat, visits: nat)
    requires next < |paths| && limit > 0 && Round(out, offsets, paths, limit, batch, latest, next, idle, visits)
    requires |batch| <= batchSize && (|batch| < batchSize ==> idle >= |paths|)
    ensures Scanned(out, offsets, paths, batchSize, limit, batch, latest)
  {
    if |batch| < batchSize {
      forall path | path in paths ensures AtEnd(out, offsets, latest, path) {
        AllVisited(paths, next, idle, q => AtEnd(out, offsets, latest, q), path);
      }
    }
    if batchSize > limit * (|paths| - 1) {
      if visits < |paths| {
        LimitTimes(limit, visits, |paths| - 1);
      }
      forall path | path in paths ensures Served(out, offsets, latest, path) {
        AllVisited(paths, next, visits, q => Served(out, offsets, latest, q), path);
      }
    }
  }

  // ---- Which paths come next ----

  /** How many visits come before that of index `i`, when `next` is the first. */
  function Ahead(next: nat, i: nat, n: nat): (k: nat)
    requires next < n && i < n
    ensures k < n
  {
    if i >= next then i - next else i + n - next
  }

  /** Every path was served, or is as many visits closer as there were. */
  ghost predicate Approached(out: Outside, offsets: map<string, int>, paths: seq<string>, latest: map<string, int>,
                             start: nat, next: nat, visits: nat)
    requires start < |paths| && next < |paths|
  {
    forall i {:trigger paths[i]} :: 0 <= i < |paths| ==>
      Served(out, offsets, latest, paths[i]) || Ahead(next, i, |paths|) + visits == Ahead(start, i, |paths|)
  }

  lemma ApproachTurn(out: Outside, offsets: map<string, int>, paths: seq<string>, latest: map<string, int>,
                     latest': map<string, int>, start: nat, next: nat, visits: nat, next': nat)
    requires start < |paths| && next < |paths| && Approached(out, offsets, paths, latest, start, next, visits)
    requires next' == (if next + 1 == |paths| then 0 else next + 1) && Served(out, offsets, latest', paths[next])
    requires forall q :: Served(out, offsets, latest, q) ==> Served(out, offsets, latest', q)
    ensures Approached(out, offsets, paths, latest', start, next', visits + 1)
  {
  }

  /** After a scan every path was served or comes sooner than before. */
  ghost predicate ServedOrSooner(out: Outside, offsets: map<string, int>, paths: seq<string>, latest: map<string, int>,
                                 start: nat, next: nat)
    requires start < |paths| && next < |paths|
  {
    forall i {:trigger paths[i]} :: 0 <= i < |paths| ==>
      Served(out, offsets, latest, paths[i]) || Ahead(next, i, |paths|) < Ahead(start, i, |paths|)
  }

  /** The index that a scan begins with. */
  function First(startIndex: int, n: nat): (i: nat)
    requires n > 0
    ensures i < n
  {
    (if startIndex < 0 then 0 else startIndex) % n
  }

  /** The offsets after a scan that was handed over. */
  ghost predicate Advanced(out: Outside, offsets: map<string, int>, latest: map<string, int>,
                           offsets': map<string, int>) {
    forall q :: Stored(out, offsets', q) == if q in latest then latest[q] else Stored(out, offsets, q)
  }

  /** The collector's state for one file source. */
  class FileScanner {
    const batchSize: int
    const perFileLimit: int
    var fileOffsets: map<string, int>
    var nextPathIndex: int

    ghost predicate Valid()
      reads this
    {
      batchSize > 0 && perFileLimit > 0
    }

    constructor (batchSize: int, perFileLimit: int)
      ensures Valid() && fileOffsets == map[] && nextPathIndex == 0
      ensures this.batchSize == (if batchSize <= 0 then 1000 else batchSize)
      ensures this.perFileLimit == (if perFileLimit <= 0 then 200 else perFileLimit)
    {
      this.batchSize := if batchSize <= 0 then 1000 else batchSize;
      this.perFileLimit := if perFileLimit <= 0 then 200 else perFileLimit;
      fileOffsets, nextPathIndex := map[], 0;
    }

    /** Offsets already known, or the checkpoint's; a checkpoint once read is remembered. */
    method LoadOffset(out: Outside, path: string) returns (offset: int)
      modifies this`fileOffsets
      ensures path in old(fileOffsets) ==> offset == old(fileOffsets)[path]
      ensures path !in old(fileOffsets) && out.checkpoint(path).Some? ==> offset == out.checkpoint(path).value
      ensures path !in old(fileOffsets) && out.checkpoint(path).None? ==> offset == 0
      ensures forall q :: Stored(out, fileOffsets, q) == Stored(out, old(fileOffsets), q)
    {
      if path in fileOffsets {
        return fileOffsets[path];
      }
      match out.checkpoint(path)
      case None => offset := 0;
      case Some(stored) =>
        fileOffsets := fileOffsets[path := stored];
        offset := stored;
    }
  
    /** One turn of the round: reads what the limits allow of a path, from where this scan or
        an earlier one stopped. None when nothing was read. */
    method VisitPath(out: Outside, path: string, latest: map<string, int>, room: int)
      returns (records: seq<Record>, next: Option<int>)
      requires Valid() && room > 0
      requires path in latest ==>
        Readable(out, fileOffsets, path) && 0 <= latest[path] <= |out.files(path).bytes|
      modifies this`fileOffsets
      ensures forall q :: Stored(out, fileOffsets, q) == Stored(out, old(fileOffsets), q)
      ensures |records| <= Min(perFileLimit, room)
      ensures next.None? ==> records == [] && AtEnd(out, old(fileOffsets), latest, path)
      ensures next.Some? ==> Readable(out, old(fileOffsets), path)
      ensures next.Some? ==> var bytes := out.files(path).bytes;
        var from := ReadFrom(out, old(fileOffsets), latest, path);
        0 <= from < next.value <= |bytes| && Reaches(bytes, from, next.value)
        && records == Lines(path, bytes, from, next.value)
    {
      var offset;
      if path in latest {
        offset := latest[path];
      } else {
        offset := LoadOffset(out, path);
      }
      var limit := if perFileLimit > room then room else perFileLimit;
      var read := ReadFileIncremental(path, out.files(path), offset, limit);
      match read
      case None => records, next := [], None;
      case Some((lines, to)) =>
        records := lines;
        next := if |lines| == 0 then None else Some(to);
    }
  
    /** The round-robin loop. The files stay as they are while it runs. */
    method ScanIncremental(out: Outside, paths: seq<string>, startIndex: int)
      returns (batch: seq<Record>, latest: map<string, int>, nextIndex: int)
      requires Valid()
      modifies this`fileOffsets
      ensures forall q :: Stored(out, fileOffsets, q) == Stored(out, old(fileOffsets), q)
      ensures Scanned(out, old(fileOffsets), paths, batchSize, perFileLimit, batch, latest)
      ensures |paths| > 0 ==> 0 <= nextIndex < |paths|
      ensures |paths| > 0 ==>
        ServedOrSooner(out, old(fileOffsets), paths, latest, First(startIndex, |paths|), nextIndex)
    {
      batch, latest := [], map[];
      if |paths| == 0 || batchSize <= 0 {
        return [], map[], 0;
      }
      nextIndex := (if startIndex < 0 then 0 else startIndex) % |paths|;
      ghost var start := nextIndex;
      ghost var known := fileOffsets;
      ghost var visits := 0;
      var idle := 0;
      while |batch| < batchSize
        invariant 0 <= nextIndex < |paths| && 0 <= idle <= |paths|
        invariant forall q :: Stored(out, fileOffsets, q) == Stored(out, known, q)
        invariant |batch| <= batchSize
        invariant Round(out, known, paths, perFileLimit, batch, latest, nextIndex, idle, visits)
        invariant Approached(out, known, paths, latest, start, nextIndex, visits) && (|batch| > 0 ==> visits > 0)
        decreases batchSize - |batch|, |paths| - idle
      {
        var path := paths[nextIndex];
        ghost var index := nextIndex;
        NextIs(nextIndex, |paths|);
        nextIndex := (nextIndex + 1) % |paths|;
        assert GapFree(out, known, latest, batch, path);
        var records, next := VisitPath(out, path, latest, batchSize - |batch|);
        if next.None? {
          IdleTurn(out, known, paths, perFileLimit, batch, latest, index, idle, visits, nextIndex);
          IdleVisit(out, known, latest, path);
          ApproachTurn(out, known, paths, latest, latest, start, index, visits, nextIndex);
          idle := idle + 1;
        } else {
          ReadTurn(out, known, paths, perFileLimit, batch, latest, index, idle, visits, nextIndex, next.value);
          ApproachTurn(out, known, paths, latest, latest[path := next.value], start, index, visits, nextIndex);
          batch := batch + records;
          latest := latest[path := next.value];
          idle := 0;
        }
        visits := visits + 1;
        if idle >= |paths| {
          break;
        }
      }
      ScanEnds(out, known, paths, batchSize, perFileLimit, batch, latest, nextIndex, idle, visits);
    }

    /** Lines the keywords or the source's priority make critical go first, in their order;
        the others follow in theirs. */
    static method SplitCritical(batch: seq<Record>, critical: Record -> bool)
      returns (first: seq<Record>, rest: seq<Record>)
      ensures first == Keep(batch, critical) && rest == Keep(batch, r => !critical(r))
    {
      first, rest := [], [];
      for i := 0 to |batch|
        invariant first == Keep(batch[..i], critical) && rest == Keep(batch[..i], r => !critical(r))
      {
        assert batch[..i + 1][..i] == batch[..i];
        if critical(batch[i]) {
          first := first + [batch[i]];
          continue;
        }
        rest := rest + [batch[i]];
      }
      assert batch[..|batch|] == batch;
    }

    /** One scan and its hand-over. `room` is how many batches the channel still takes before
        the collector is stopped. The stored offsets advance only when all was handed over. */
    method ScanAndEmit(out: Outside, paths: seq<string>, critical: Record -> bool, room: nat)
      returns (ok: bool, emitted: seq<seq<Record>>, batch: seq<Record>, latest: map<string, int>)
      requires Valid()
      modifies this
      ensures Scanned(out, old(fileOffsets), paths, batchSize, perFileLimit, batch, latest)
      ensures ok <==> |Parts(batch, critical)| <= room
      ensures emitted == if ok then Parts(batch, critical) else Parts(batch, critical)[..room]
      ensures Advanced(out, old(fileOffsets), if ok then latest else map[], fileOffsets)
      ensures |paths| > 0 ==> 0 <= nextPathIndex < |paths| && ServedOrSooner(
        out, old(fileOffsets), paths, latest, First(old(nextPathIndex), |paths|), nextPathIndex)
    {
      batch, latest, nextPathIndex := ScanIncremental(out, paths, nextPathIndex);
      emitted := [];
      var first, rest := SplitCritical(batch, critical);
      if |batch| == 0 {
        NothingRead(out, old(fileOffsets), batch, latest);
        return true, [], batch, latest;
      }
      if |first| > 0 {
        if room == 0 {
          return false, [], batch, latest;
        }
        emitted := [first];
      }
      if |rest| > 0 {
        if |emitted| >= room {
          return false, emitted, batch, latest;
        }
        emitted := emitted + [rest];
      }
      fileOffsets := fileOffsets + latest;
      ok := true;
    }
  }

  // ---- Scans one after the other ----

  /** Two scans are gap-free together when each is. */
  lemma ScansCompose(out: Outside, offsets: map<string, int>, latest: map<string, int>, batch: seq<Record>,
                     offsets': map<string, int>, latest': map<string, int>, batch': seq<Record>, path: string)
    requires GapFree(out, offsets, latest, batch, path) && GapFree(out, offsets', latest', batch', path)
    requires Stored(out, offsets', path) == if path in latest then latest[path] else Stored(out, offsets, path)
    ensures GapFree(out, offsets, latest + latest', batch + batch', path)
  {
    OfPathConcat(batch, batch', path);
    if path in latest && path in latest' {
      var bytes := out.files(path).bytes;
      LinesSplit(path, bytes, Start(out, offsets, path), latest[path], latest'[path]);
    }
  }

  function Joined(batches: seq<seq<Record>>): seq<Record> {
    if |batches| == 0 then [] else Joined(batches[..|batches| - 1]) + batches[|batches| - 1]
  }

  function Reached(latests: seq<map<string, int>>): map<string, int> {
    if |latests| == 0 then map[] else Reached(latests[..|latests| - 1]) + latests[|latests| - 1]
  }

  /** Any number of handed-over scans of files that stay the same: together each path's
      records are exactly its lines from the first offset to the last, however they were cut
      into reads and batches. */
  lemma {:induction false} ScansAreGapFree(out: Outside, offsets: seq<map<string, int>>, latests: seq<map<string, int>>,
                                           batches: seq<seq<Record>>, path: string)
    requires |offsets| == |latests| + 1 && |batches| == |latests|
    requires forall i :: 0 <= i < |latests| ==> GapFree(out, offsets[i], latests[i], batches[i], path)
    requires forall i :: 0 <= i < |latests| ==>
      Stored(out, offsets[i + 1], path) ==
        if path in latests[i] then latests[i][path] else Stored(out, offsets[i], path)
    ensures GapFree(out, offsets[0], Reached(latests), Joined(batches), path)
    ensures Stored(out, offsets[|latests|], path) ==
      if path in Reached(latests) then Reached(latests)[path] else Stored(out, offsets[0], path)
  {
    var n := |latests| - 1;
    if n >= 0 {
      ScansAreGapFree(out, offsets[..n + 1], latests[..n], batches[..n], path);
      ScansCompose(out, offsets[0], Reached(latests[..n]), Joined(batches[..n]), offsets[n], latests[n], batches[n],
                   path);
    }
  }

  /** A scan that brings nothing has found every path at its end. */
  lemma EmptyScanIsDrained(out: Outside, offsets: map<string, int>, paths: seq<string>, batchSize: int, limit: int,
                           batch: seq<Record>, latest: map<string, int>, path: string)
    requires Scanned(out, offsets, paths, batchSize, limit, batch, latest) && |batch| == 0 < batchSize && path in paths
    ensures AtEnd(out, offsets, map[], path)
  {
    NothingRead(out, offsets, batch, latest);
    assert AtEnd(out, offsets, latest, path);
  }

  /** What scan `k` of several did to the offsets and to the path that comes next. */
  ghost predicate ScanOf(out: Outside, paths: seq<string>, offsets: seq<map<string, int>>,
                         latests: seq<map<string, int>>,
                         nexts: seq<nat>, k: nat)
    requires |offsets| == |nexts| == |latests| + 1 && k < |latests|
  {
    && nexts[k] < |paths| && nexts[k + 1] < |paths|
    && ServedOrSooner(out, offsets[k], paths, latests[k], nexts[k], nexts[k + 1])
    && Advanced(out, offsets[k], latests[k], offsets[k + 1])
  }

  /** Until a path is read it keeps its offset and comes sooner with each scan. */
  lemma {:induction false} ComesSooner(out: Outside, paths: seq<string>, offsets: seq<map<string, int>>,
                                       latests: seq<map<string, int>>, nexts: seq<nat>, i: nat, k: nat)
    requires |offsets| == |nexts| == |latests| + 1 && k <= |latests| && i < |paths| && |latests| > 0
    requires forall j {:trigger ScanOf(out, paths, offsets, latests, nexts, j)} ::
      0 <= j < |latests| ==> ScanOf(out, paths, offsets, latests, nexts, j)
    requires !AtEnd(out, offsets[0], map[], paths[i])
    requires forall j :: 0 <= j < k ==> paths[i] !in latests[j]
    ensures nexts[0] < |paths| && nexts[k] < |paths|
    ensures Stored(out, offsets[k], paths[i]) == Stored(out, offsets[0], paths[i])
    ensures Ahead(nexts[k], i, |paths|) + k <= Ahead(nexts[0], i, |paths|)
  {
    if k == 0 {
      assert ScanOf(out, paths, offsets, latests, nexts, 0);
    } else {
      ComesSooner(out, paths, offsets, latests, nexts, i, k - 1);
      assert ScanOf(out, paths, offsets, latests, nexts, k - 1);
      assert !Served(out, offsets[k - 1], latests[k - 1], paths[i]);
    }
  }

  /** No path is starved: whatever the batch size, if the path list stays the same, a path with
      unread data is read in one of as many handed-over scans as there are paths. */
  lemma NoneIsStarved(out: Outside, paths: seq<string>, offsets: seq<map<string, int>>, latests: seq<map<string, int>>,
                      nexts: seq<nat>, i: nat)
    requires |offsets| == |nexts| == |latests| + 1 && |latests| == |paths| && i < |paths|
    requires forall j {:trigger ScanOf(out, paths, offsets, latests, nexts, j)} ::
      0 <= j < |latests| ==> ScanOf(out, paths, offsets, latests, nexts, j)
    requires !AtEnd(out, offsets[0], map[], paths[i])
    ensures exists j :: 0 <= j < |latests| && paths[i] in latests[j]
  {
    if forall j :: 0 <= j < |latests| ==> paths[i] !in latests[j] {
      ComesSooner(out, paths, offsets, latests, nexts, i, |latests|);
    }
  }
}
