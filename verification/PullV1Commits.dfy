/** What a committed cursor of the version 1 pull service promises: every matching record at or
    below it that is still buffered was acknowledged. This needs clients that pull with the
    empty cursor and claim no more than they were given, and it does not hold for a client
    that asks for the literal path "*". */
module PullV1Commits {
  import opened Prelude
  import opened Runs
  import opened Normalize
  import opened PullV1
  import opened PullV1Index
  import opened PullV1Runs
  import opened PullV1Paging

  ghost predicate SkipsNothing(env: Env, w: World, path: string) {
    forall r :: r in w.st.records && Matches(env.glob, r.source, path) && r.seqNo <= Num(w.st.committed, Scope(path))
      ==> (path, r.seqNo) in w.acked
  }

  predicate Holds(b: Batch, seqNo: int) {
    exists x :: x in b.records && x.seqNo == seqNo
  }

  /** Acknowledging the batch would skip nothing. */
  ghost predicate Covers(env: Env, w: World, b: Batch) {
    && b.next <= w.st.nextSeq
    && forall r :: r in w.st.records && Matches(env.glob, r.source, b.path) && r.seqNo <= b.next
         ==> Holds(b, r.seqNo) || r.seqNo <= Num(w.st.committed, Scope(b.path))
  }

  ghost predicate Careful(env: Env, w: World) {
    && (forall path {:trigger SkipsNothing(env, w, path)} :: path != "*" ==> SkipsNothing(env, w, path))
    && (forall id {:trigger w.st.pending[id]} :: id in w.st.pending ==>
          w.st.pending[id].path != "*" && Covers(env, w, w.st.pending[id]))
    && (forall k :: 0 <= Num(w.st.committed, k) <= w.st.nextSeq)
  }

  /** A step by clients that pull with the empty cursor, never for the path "*", and claim no
      more than the batch they acknowledge. */
  ghost predicate FrontNext(env: Env, w: World, e: Event, w': World) {
    && Next(env, w, e, w')
    && (e.Pull? ==> e.cursor.Committed? && e.path != "*")
    && (e.Acknowledge? && e.claim.At? && e.batchId in w.st.pending ==> e.claim.n <= w.st.pending[e.batchId].next)
  }

  ghost predicate FrontRun(env: Env, ws: seq<World>, es: seq<Event>) {
    Steps((w: World, e: Event, w': World) => FrontNext(env, w, e, w'), ws, es) && Initial(ws[0])
  }

  // ---- Adding ----

  predicate Known(records: seq<Record>, r: Record) {
    exists x :: x in records && x.seqNo == r.seqNo && x.source == r.source
  }

  /** Every record is a previous one, by number and source, or newly numbered. */
  ghost predicate OldOrNew(a: State, b: State) {
    forall r :: r in b.records ==> r.seqNo > a.nextSeq || Known(a.records, r)
  }

  lemma GrewOldOrNew(a: State, b: State)
    requires Grew(a, b)
    ensures OldOrNew(a, b)
  {
    forall r | r in b.records ensures r.seqNo > a.nextSeq || Known(a.records, r) {
      var i :| 0 <= i < |b.records| && b.records[i] == r;
      if i < |a.records| {
        assert a.records[i] in a.records;
      }
    }
  }

  lemma AddOldOrNew(digest: string -> string, st: State, lines: seq<Line>)
    requires Sound(st)
    ensures OldOrNew(st, AddStep(digest, st, lines)) && st.nextSeq <= AddStep(digest, st, lines).nextSeq
  {
    if lines == [] {
      GrewOldOrNew(st, st);
    } else {
      var rs := Grouped(digest, lines, |lines|);
      GroupedPlain(digest, lines, |lines|);
      AddAllGrew(digest, st, rs);
      GrewOldOrNew(st, AddAll(digest, st, rs));
    }
  }

  /** Both promises survive when records are added, edited or dropped. */
  lemma ShrunkCareful(env: Env, w: World, w': World)
    requires Careful(env, w) && OldOrNew(w.st, w'.st) && w.st.nextSeq <= w'.st.nextSeq
    requires w'.st.committed == w.st.committed && w'.st.pending == w.st.pending && w'.acked == w.acked
    ensures Careful(env, w')
  {
    forall path | path != "*" ensures SkipsNothing(env, w', path) {
      assert SkipsNothing(env, w, path);
      assert Num(w.st.committed, Scope(path)) <= w.st.nextSeq;
    }
    forall id | id in w'.st.pending ensures Covers(env, w', w'.st.pending[id]) {
      assert Covers(env, w, w.st.pending[id]);
    }
  }

  // ---- Pulling ----

  lemma PageHolds(matching: seq<Record>, max: int, start: int, limits: Limits, page: seq<Record>, p: nat, k: nat)
    requires Rising(Seqs(matching), max) && IsPage(matching, start, limits, page, p) && page != []
    requires k < |matching| && start < matching[k].seqNo <= LastSeq(page) && 0 <= start
    ensures matching[k] in page
  {
    LastOfPage(matching, page, p);
    var m := Seqs(matching);
    assert m[k] == matching[k].seqNo;
    assert p <= k < p + |page|;
    assert page[k - p] == matching[p..][k - p] == matching[k];
  }

  lemma PageCovers(env: Env, w: World, path: string, start: int, limits: Limits, page: seq<Record>, p: nat)
    requires Ordered(w.st.records, w.st.nextSeq) && page != []
    requires 0 <= start <= Num(w.st.committed, Scope(path))
    requires IsPage(Matching(env.glob, w.st.records, path), start, limits, page, p)
    ensures Covers(env, w, Batch(path, LastSeq(page), page))
  {
    var matching := Matching(env.glob, w.st.records, path);
    MatchingRising(env.glob, w.st.records, path, w.st.nextSeq);
    MatchingIff(env.glob, w.st.records, path);
    var b := Batch(path, LastSeq(page), page);
    LastOfPage(matching, page, p);
    forall r | r in w.st.records && Matches(env.glob, r.source, path) && start < r.seqNo <= b.next
      ensures Holds(b, r.seqNo)
    {
      var k :| 0 <= k < |matching| && matching[k] == r;
      PageHolds(matching, w.st.nextSeq, start, limits, page, p, k);
    }
  }

  lemma PulledCovers(env: Env, w: World, path: string, limits: Limits, id: string)
    requires Kept(w) && limits.maxRecords > 0 && Num(w.st.committed, Scope(path)) >= 0
    ensures var (st', out) := PullFrom(env.glob, w.st, path, Committed, limits, id);
      if out.Page? then
        && st' == w.st.(pending := w.st.pending[id := Batch(path, out.next, out.records)])
        && Covers(env, w, Batch(path, out.next, out.records))
      else st' == w.st
  {
    var start := Num(w.st.committed, Scope(path));
    var matching := Matching(env.glob, w.st.records, path);
    MatchingRising(env.glob, w.st.records, path, w.st.nextSeq);
    var p := SelectedIsPage(matching, w.st.nextSeq, start, limits);
    var page := Selected(matching, start, limits);
    if page != [] {
      PageCovers(env, w, path, start, limits, page, p);
    }
  }

  lemma PullCareful(env: Env, w: World, path: string, limits: Option<Limits>, id: string, w': World)
    requires Kept(w) && Careful(env, w) && FrontNext(env, w, Pull(path, Committed, limits, id), w')
    ensures Careful(env, w')
  {
    if limits.Some? {
      PulledCovers(env, w, path, limits.value, id);
    }
    forall q | q != "*" ensures SkipsNothing(env, w', q) {
      assert SkipsNothing(env, w, q);
    }
    forall i | i in w'.st.pending ensures Covers(env, w', w'.st.pending[i]) {
      assert i in w.st.pending && w.st.pending[i] == w'.st.pending[i] ==> Covers(env, w, w.st.pending[i]);
    }
  }

  // ---- Acknowledging ----

  /** Batches leave the pending map and nothing else changes. */
  ghost predicate Released(w: World, w': World) {
    && w' == w.(st := w.st.(pending := w'.st.pending))
    && forall id :: id in w'.st.pending ==> id in w.st.pending && w'.st.pending[id] == w.st.pending[id]
  }

  ghost predicate CommittedBatch(w: World, id: string, w': World) {
    && id in w.st.pending
    && var b := w.st.pending[id];
       && w'.st == CommittedBy(w.st.(pending := w.st.pending - {id}), b, b.next)
       && w'.acked == w.acked + Tags(b)
  }

  lemma AckCases(env: Env, w: World, id: string, verdict: Verdict, claim: Cursor, w': World)
    requires FrontNext(env, w, Acknowledge(id, verdict, claim), w')
    ensures Released(w, w') || CommittedBatch(w, id, w')
  {
  }

  lemma ReleaseCareful(env: Env, w: World, w': World)
    requires Careful(env, w) && Released(w, w')
    ensures Careful(env, w')
  {
    forall q | q != "*" ensures SkipsNothing(env, w', q) {
      assert SkipsNothing(env, w, q);
    }
    forall i | i in w'.st.pending ensures Covers(env, w', w'.st.pending[i]) {
      assert Covers(env, w, w.st.pending[i]);
    }
  }

  /** Two paths share a scope only if one is empty and the other is "*". */
  lemma ScopesCollideIff(p: string, q: string)
    requires p != q
    ensures Scope(p) == Scope(q) <==> (p == "" && q == "*") || (p == "*" && q == "")
  {
  }

  lemma CommitSkipsNothing(env: Env, w: World, id: string, w': World, path: string)
    requires id in w.st.pending && CommittedBatch(w, id, w') && Covers(env, w, w.st.pending[id])
    requires path != "*" && w.st.pending[id].path != "*" && SkipsNothing(env, w, path)
    ensures SkipsNothing(env, w', path)
  {
    var b := w.st.pending[id];
    if path == b.path {
      forall r | r in w'.st.records && Matches(env.glob, r.source, path) && r.seqNo <= Num(w'.st.committed, Scope(path))
        ensures (path, r.seqNo) in w'.acked
      {
        if r.seqNo > Num(w.st.committed, Scope(path)) {
          assert Holds(b, r.seqNo);
        }
      }
    } else {
      ScopesCollideIff(path, b.path);
    }
  }

  lemma CommitCareful(env: Env, w: World, id: string, w': World)
    requires Careful(env, w) && CommittedBatch(w, id, w') && w'.st.records == w.st.records
    requires w'.st.nextSeq == w.st.nextSeq
    ensures Careful(env, w')
  {
    var b := w.st.pending[id];
    assert Covers(env, w, b);
    forall q | q != "*" ensures SkipsNothing(env, w', q) {
      assert SkipsNothing(env, w, q);
      CommitSkipsNothing(env, w, id, w', q);
    }
    assert forall k :: Num(w.st.committed, k) <= Num(w'.st.committed, k);
    forall i | i in w'.st.pending ensures Covers(env, w', w'.st.pending[i]) {
      assert Covers(env, w, w.st.pending[i]);
    }
  }

  lemma StepCareful(env: Env, w: World, e: Event, w': World)
    requires Kept(w) && Careful(env, w) && FrontNext(env, w, e, w')
    ensures Careful(env, w')
  {
    match e
    case Add(lines) =>
      AddOldOrNew(env.digest, w.st, lines);
      AddLeavesRest(env.digest, w.st, lines);
      ShrunkCareful(env, w, w');
    case Pull(path, cursor, limits, id) =>
      PullCareful(env, w, path, limits, id, w');
    case Acknowledge(id, verdict, claim) =>
      AckCases(env, w, id, verdict, claim, w');
      if Released(w, w') {
        ReleaseCareful(env, w, w');
      } else {
        CommitCareful(env, w, id, w');
      }
  }

  lemma FrontCareful(env: Env, ws: seq<World>, es: seq<Event>)
    requires FrontRun(env, ws, es)
    ensures forall i :: 0 <= i < |ws| ==> Kept(ws[i]) && Careful(env, ws[i])
  {
    var next := (w: World, e: Event, w': World) => FrontNext(env, w, e, w');
    var inv := (w: World) => Kept(w) && Careful(env, w);
    forall w, e, w' | inv(w) && next(w, e, w') ensures inv(w') {
      StepKeeps(env, w, e, w');
      StepCareful(env, w, e, w');
    }
    InitialKept(ws[0]);
    Invariant(next, ws, es, inv);
    assert forall i :: 0 <= i < |ws| ==> inv(ws[i]);
  }

  /** In every run of such clients, whatever is still buffered at or below a path's committed
      cursor and matches the path was in an acknowledged batch of that path. */
  lemma NothingIsSkipped(env: Env, ws: seq<World>, es: seq<Event>)
    requires FrontRun(env, ws, es)
    ensures forall i, path :: 0 <= i < |ws| && path != "*" ==> SkipsNothing(env, ws[i], path)
  {
    FrontCareful(env, ws, es);
  }

  /** And no cursor is committed that was not issued: a client that starts with the empty cursor
      starts where its session is exact. */
  lemma CommittedIsIssued(env: Env, ws: seq<World>, es: seq<Event>)
    requires FrontRun(env, ws, es)
    ensures forall i, path :: 0 <= i < |ws| ==> 0 <= Num(ws[i].st.committed, Scope(path)) <= ws[i].st.nextSeq
  {
    FrontCareful(env, ws, es);
  }
}
