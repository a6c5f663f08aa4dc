/** Paging in the version 1 pull service: what one page is, and that a client which feeds each
    cursor into its next pull sees every matching record once, in order, whatever is added
    in between. */
module PullV1Paging {
  import opened Runs
  import opened Normalize
  import opened PullV1
  import opened PullV1Index
  import opened PullV1Runs

  function Seqs(records: seq<Record>): (r: seq<int>)
    ensures |r| == |records| && forall i :: 0 <= i < |r| ==> r[i] == records[i].seqNo
  {
    seq(|records|, i requires 0 <= i < |records| => records[i].seqNo)
  }

  predicate Rising(s: seq<int>, max: int) {
    && (forall i :: 0 <= i < |s| ==> 1 <= s[i] <= max)
    && (forall i, j :: 0 <= i < j < |s| ==> s[i] < s[j])
  }

  /** `p` is where the numbers after the cursor begin. */
  predicate Cut(s: seq<int>, cursor: int, p: nat) {
    && p <= |s|
    && (forall i :: 0 <= i < p ==> s[i] <= cursor)
    && (forall i :: p <= i < |s| ==> s[i] > cursor)
  }

  lemma RisingCut(s: seq<int>, max: int, cursor: int) returns (p: nat)
    requires Rising(s, max)
    ensures Cut(s, cursor, p)
  {
    p := |s|;
    while p > 0 && s[p - 1] > cursor
      invariant p <= |s| && forall i :: p <= i < |s| ==> s[i] > cursor
    {
      p := p - 1;
    }
  }

  lemma CutAtMember(s: seq<int>, max: int, k: nat)
    requires Rising(s, max) && k < |s|
    ensures Cut(s, s[k], k + 1)
  {
  }

  lemma {:induction false} AfterSplit(records: seq<Record>, cursor: int, p: nat)
    requires p <= |records|
    requires forall i :: 0 <= i < p ==> records[i].seqNo <= cursor
    requires forall i :: p <= i < |records| ==> records[i].seqNo > cursor
    ensures After(records, cursor) == records[p..]
  {
    var n := |records| - 1;
    if n >= 0 {
      if p > n {
        AfterSplit(records[..n], cursor, n);
        assert records[..n][n..] == [] && records[p..] == [];
      } else {
        AfterSplit(records[..n], cursor, p);
        assert records[p..] == records[..n][p..] + [records[n]];
      }
    }
  }

  lemma AfterCut(records: seq<Record>, cursor: int, p: nat)
    requires Cut(Seqs(records), cursor, p)
    ensures After(records, cursor) == records[p..]
  {
    var s := Seqs(records);
    forall i | 0 <= i < p ensures records[i].seqNo <= cursor { assert s[i] <= cursor; }
    forall i | p <= i < |records| ensures records[i].seqNo > cursor { assert s[i] > cursor; }
    AfterSplit(records, cursor, p);
  }

  lemma {:induction false} MatchingIff(glob: (string, string) -> bool, records: seq<Record>, path: string)
    ensures forall r :: r in Matching(glob, records, path) <==> r in records && Matches(glob, r.source, path)
  {
    var n := |records| - 1;
    if n >= 0 {
      MatchingIff(glob, records[..n], path);
      assert records == records[..n] + [records[n]];
    }
  }

  /** The numbers of the matching records of a path. */
  ghost function Numbers(glob: (string, string) -> bool, records: seq<Record>, path: string): seq<int> {
    Seqs(Matching(glob, records, path))
  }

  lemma NumbersSnoc(glob: (string, string) -> bool, records: seq<Record>, r: Record, path: string)
    ensures Numbers(glob, records + [r], path) ==
      Numbers(glob, records, path) + if Matches(glob, r.source, path) then [r.seqNo] else []
  {
    assert (records + [r])[..|records|] == records;
  }

  lemma RisingGrows(m: seq<int>, x: int, max: int)
    requires Rising(m, x - 1) && 1 <= x <= max
    ensures Rising(m, max) && Rising(m + [x], max)
  {
  }

  lemma {:induction false} MatchingRising(glob: (string, string) -> bool, records: seq<Record>, path: string, max: int)
    requires Ordered(records, max)
    ensures Rising(Seqs(Matching(glob, records, path)), max)
  {
    if |records| > 0 {
      var front, last := records[..|records| - 1], records[|records| - 1];
      assert Ordered(front, last.seqNo - 1) && records == front + [last];
      MatchingRising(glob, front, path, last.seqNo - 1);
      NumbersSnoc(glob, front, last, path);
      RisingGrows(Numbers(glob, front, path), last.seqNo, max);
    }
  }

  /** What a page is: the longest run that fits, starting at the cursor and never empty while
      there is a record left. */
  ghost predicate IsPage(matching: seq<Record>, start: int, limits: Limits, page: seq<Record>, p: nat) {
    && Cut(Seqs(matching), Effective(matching, start), p)
    && page <= matching[p..]
    && Fits(page, limits.maxRecords, limits.maxBytes)
    && (page == [] ==> p == |matching|)
    && (forall q: seq<Record> :: page < q && q <= matching[p..] ==> !Fits(q, limits.maxRecords, limits.maxBytes))
  }

  lemma SelectedIsPage(matching: seq<Record>, max: int, start: int, limits: Limits) returns (p: nat)
    requires Rising(Seqs(matching), max) && limits.maxRecords > 0
    ensures IsPage(matching, start, limits, Selected(matching, start, limits), p)
  {
    p := RisingCut(Seqs(matching), max, Effective(matching, start));
    AfterCut(matching, Effective(matching, start), p);
    var rest := matching[p..];
    assert forall q: seq<Record> :: q <= rest ==> q == rest[..|q|];
    if rest != [] {
      assert Fits(rest[..1], limits.maxRecords, limits.maxBytes);
    }
  }

  lemma LastOfPage(matching: seq<Record>, page: seq<Record>, p: nat)
    requires p <= |matching| && page != [] && page <= matching[p..]
    ensures p + |page| <= |matching|
    ensures LastSeq(page) == Seqs(matching)[p + |page| - 1] == matching[p + |page| - 1].seqNo
  {
    assert page[|page| - 1] == matching[p..][|page| - 1];
  }

  /** The page, its last number, and whether matching records follow it. */
  lemma SelectedPage(matching: seq<Record>, max: nat, start: int, limits: Limits) returns (p: nat)
    requires Rising(Seqs(matching), max) && limits.maxRecords > 0
    ensures var page := Selected(matching, start, limits);
      && IsPage(matching, start, limits, page, p)
      && (page != [] ==> p + |page| <= |matching| && LastSeq(page) == matching[p + |page| - 1].seqNo
                         && (After(matching, LastSeq(page)) != [] <==> p + |page| < |matching|))
  {
    p := SelectedIsPage(matching, max, start, limits);
    var page := Selected(matching, start, limits);
    if page != [] {
      LastOfPage(matching, page, p);
      CutAtMember(Seqs(matching), max, p + |page| - 1);
      AfterCut(matching, LastSeq(page), p + |page|);
    }
  }

  /** A pull that is answered: exactly the longest fitting page after where it starts, and whether
      matching records remain; without any, the cursor it was asked with. */
  lemma PullIsExact(glob: (string, string) -> bool, st: State, path: string, cursor: Cursor, limits: Limits, id: string)
    returns (p: nat)
    requires Ordered(st.records, st.nextSeq) && limits.maxRecords > 0
    ensures var matching, start := Matching(glob, st.records, path), Asked(st, path, cursor);
      var page := Selected(matching, start, limits);
      var (st', out) := PullFrom(glob, st, path, cursor, limits, id);
      && IsPage(matching, start, limits, page, p)
      && (if page == [] then st' == st && out == Nothing(cursor)
          else p + |page| <= |matching|
               && out == Page(id, matching[p + |page| - 1].seqNo, p + |page| < |matching|, page)
               && st' == st.(pending := st.pending[id := Batch(path, out.next, page)]))
  {
    MatchingRising(glob, st.records, path, st.nextSeq);
    p := SelectedPage(Matching(glob, st.records, path), st.nextSeq, Asked(st, path, cursor), limits);
  }

  // ---- The buffer between two pulls ----

  /** Without overflow, a later buffer holds the same records in the same places, though some
      may have been edited, followed by newly numbered ones. */
  ghost predicate Grew(a: State, b: State) {
    && a.nextSeq <= b.nextSeq && |a.records| <= |b.records|
    && (forall i :: 0 <= i < |a.records| ==>
          b.records[i].seqNo == a.records[i].seqNo && b.records[i].source == a.records[i].source)
    && (forall i :: |a.records| <= i < |b.records| ==> b.records[i].seqNo > a.nextSeq)
  }

  lemma InPlaceGrew(a: State, b: State, i: nat, r: Record)
    requires i < |a.records| && b.records == a.records[i := r] && a.nextSeq <= b.nextSeq
    requires r.seqNo == a.records[i].seqNo && r.source == a.records[i].source
    ensures Grew(a, b)
  {
  }

  lemma PushGrew(a: State, b: State, r: Record)
    requires b.records == a.records + [r] && a.nextSeq < r.seqNo && a.nextSeq <= b.nextSeq
    ensures Grew(a, b)
  {
  }

  lemma AddOneGrew(digest: string -> string, st: State, r: Record)
    requires Sound(st) && Normal(r)
    ensures Grew(st, AddOne(digest, st, r))
  {
    var fate := Fate(st, r);
    var st' := AddOne(digest, st, r);
    if fate.Continuation? {
      assert Normal(st.records[fate.i]);
      ContinuationEdits(digest, st.records[fate.i], r);
      InPlaceGrew(st, st', fate.i, Finalize(digest, Appended(st.records[fate.i], r)));
    } else if fate.Again? {
      InPlaceGrew(st, st', fate.i, Repeated(st.records[fate.i], r.(seqNo := st.nextSeq + 1)));
    } else {
      PushGrew(st, st', r.(seqNo := st.nextSeq + 1));
    }
  }

  lemma GrewOn(a: State, b: State, c: State)
    requires Grew(a, b) && Grew(b, c)
    ensures Grew(a, c)
  {
  }

  lemma {:induction false} AddAllGrew(digest: string -> string, st: State, rs: seq<Record>)
    requires Sound(st) && AllPlain(rs)
    ensures Grew(st, AddAll(digest, st, rs))
  {
    if rs != [] {
      var n := |rs| - 1;
      var before := AddAll(digest, st, rs[..n]);
      AddAllGrew(digest, st, rs[..n]);
      AddAllSound(digest, st, rs[..n]);
      assert Plain(rs[n]);
      AddOneGrew(digest, before, rs[n]);
      GrewOn(st, before, AddOne(digest, before, rs[n]));
    }
  }

  /** A step in which the buffer does not overflow. */
  ghost predicate NoOverflow(w: World, w': World) {
    w'.ledger.evicted == w.ledger.evicted
  }

  lemma NothingExcess(st: State, evicted: seq<Record>)
    requires evicted + Excess(st) == evicted
    ensures Trimmed(st) == st
  {
    assert |evicted + Excess(st)| == |evicted| + |Excess(st)|;
  }

  lemma AddGrew(env: Env, w: World, lines: seq<Line>, w': World)
    requires Kept(w) && Next(env, w, Add(lines), w') && NoOverflow(w, w')
    ensures Grew(w.st, w'.st)
  {
    if lines != [] {
      var rs := Grouped(env.digest, lines, |lines|);
      GroupedPlain(env.digest, lines, |lines|);
      AddAllGrew(env.digest, w.st, rs);
      AddAllCounts(env.digest, w.st, w.ledger, rs);
      NothingExcess(AddAll(env.digest, w.st, rs), w.ledger.evicted);
    }
  }

  lemma StepGrew(env: Env, w: World, e: Event, w': World)
    requires Kept(w) && Next(env, w, e, w') && NoOverflow(w, w')
    ensures Grew(w.st, w'.st)
  {
    match e
    case Add(lines) => AddGrew(env, w, lines, w');
    case Pull(path, cursor, limits, id) => PullEffect(env, w.st, path, cursor, limits, id);
    case Acknowledge(id, verdict, claim) => AckEffect(w.st, id, verdict, claim);
  }

  ghost predicate GrewWorld(a: World, b: World) {
    Grew(a.st, b.st)
  }

  /** The buffer does not overflow in any step. */
  ghost predicate NeverFull(ws: seq<World>, es: seq<Event>) {
    |ws| == |es| + 1 && forall i {:trigger es[i]} :: 0 <= i < |es| ==> NoOverflow(ws[i], ws[i + 1])
  }

  lemma RunGrew(env: Env, ws: seq<World>, es: seq<Event>)
    requires Run(env, ws, es) && NeverFull(ws, es)
    ensures forall i, j :: 0 <= i <= j < |ws| ==> GrewWorld(ws[i], ws[j])
  {
    RunKeeps(env, ws, es);
    var next := (w: World, e: Event, w': World) => Next(env, w, e, w');
    forall i | 0 <= i < |es| ensures GrewWorld(ws[i], ws[i + 1]) {
      assert next(ws[i], es[i], ws[i + 1]) && Kept(ws[i]);
      StepGrew(env, ws[i], es[i], ws[i + 1]);
    }
    Monotone(next, ws, es, GrewWorld);
  }

  ghost predicate SameKeys(a: seq<Record>, b: seq<Record>) {
    |a| == |b| && forall i :: 0 <= i < |a| ==> b[i].seqNo == a[i].seqNo && b[i].source == a[i].source
  }

  lemma {:induction false} SameNumbers(glob: (string, string) -> bool, a: seq<Record>, b: seq<Record>, path: string)
    requires SameKeys(a, b)
    ensures Numbers(glob, a, path) == Numbers(glob, b, path)
  {
    if |a| > 0 {
      var n := |a| - 1;
      assert a == a[..n] + [a[n]] && b == b[..n] + [b[n]];
      SameNumbers(glob, a[..n], b[..n], path);
      NumbersSnoc(glob, a[..n], a[n], path);
      NumbersSnoc(glob, b[..n], b[n], path);
    }
  }

  /** Matching records keep their places, and later ones have larger numbers. */
  lemma {:induction false} NumbersGrew(glob: (string, string) -> bool, a: seq<Record>, b: seq<Record>, path: string,
                                       bound: int)
    requires |a| <= |b| && SameKeys(a, b[..|a|])
    requires forall i :: |a| <= i < |b| ==> b[i].seqNo > bound
    ensures var m, m' := Numbers(glob, a, path), Numbers(glob, b, path);
      m <= m' && forall i :: |m| <= i < |m'| ==> m'[i] > bound
  {
    if |a| == |b| {
      assert b[..|a|] == b;
      SameNumbers(glob, a, b, path);
    } else {
      var front, last := b[..|b| - 1], b[|b| - 1];
      assert front[..|a|] == b[..|a|] && b == front + [last];
      NumbersGrew(glob, a, front, path, bound);
      NumbersSnoc(glob, front, last, path);
    }
  }
}
