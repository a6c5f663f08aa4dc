/** Exactly when acknowledging a batch breaks the promise of a committed cursor: claims above the
    batch, and the two paths that share a scope. Every broken promise is reached from the
    initial state. */
module PullV1Breaks {
  import opened Prelude
  import opened Runs
  import opened Text
  import opened Normalize
  import opened PullV1
  import opened PullV1Runs
  import opened PullV1Paging
  import opened PullV1Commits
  import opened PullV1Reach

  // ---- Claims ----

  ghost predicate FrontReachable(env: Env, w: World) {
    exists ws, es :: FrontRun(env, ws, es) && ws[|es|] == w
  }

  lemma FrontSnoc(env: Env, ws: seq<World>, es: seq<Event>, e: Event, w': World)
    requires FrontRun(env, ws, es) && FrontNext(env, ws[|es|], e, w')
    ensures FrontRun(env, ws + [w'], es + [e])
  {
    StepsSnoc((w: World, e: Event, w': World) => FrontNext(env, w, e, w'), ws, es, e, w');
  }

  lemma AddsAreFront(env: Env, ws: seq<World>, es: seq<Event>)
    requires Quiet(env, ws, es) && OnlyAdds(es)
    ensures FrontRun(env, ws, es)
  {
    QuietIsRun(env, ws, es);
    var next := (w: World, e: Event, w': World) => Next(env, w, e, w');
    forall i | 0 <= i < |es| ensures FrontNext(env, ws[i], es[i], ws[i + 1]) {
      assert next(ws[i], es[i], ws[i + 1]);
    }
  }

  /** Acknowledging with the claim `n` a batch whose own cursor is `m` never skips a record, in
      whatever state careful clients have brought about. */
  ghost predicate ClaimIsSafe(env: Env, m: int, n: nat) {
    forall w, id, w' ::
      (&& FrontReachable(env, w) && id in w.st.pending && w.st.pending[id].next == m
       && Next(env, w, Acknowledge(id, Ack, At(n)), w'))
      ==> SkipsNothing(env, w', w.st.pending[id].path)
  }

  lemma SmallClaimIsSafe(env: Env, w: World, id: string, n: nat, w': World)
    requires FrontReachable(env, w) && id in w.st.pending && n <= w.st.pending[id].next
    requires Next(env, w, Acknowledge(id, Ack, At(n)), w')
    ensures SkipsNothing(env, w', w.st.pending[id].path)
  {
    var ws, es :| FrontRun(env, ws, es) && ws[|es|] == w;
    FrontCareful(env, ws, es);
    assert Careful(env, w) && w.st.pending[id].path != "*";
    StepCareful(env, w, Acknowledge(id, Ack, At(n)), w');
  }

  lemma NoPatterns()
    ensures |Patterns("")| == 0
  {
    SplitWhole("", ',');
    TrimTight(Go, "");
    FlatMapOne("", KeptLine);
  }

  lemma {:induction false} AllMatch(glob: (string, string) -> bool, records: seq<Record>)
    ensures Matching(glob, records, "") == records
  {
    NoPatterns();
    if |records| > 0 {
      AllMatch(glob, records[..|records| - 1]);
      assert records == records[..|records| - 1] + [records[|records| - 1]];
    }
  }

  lemma {:induction false} ShortBytes(records: seq<Record>)
    requires forall i :: 0 <= i < |records| ==> |records[i].data| == 1
    ensures Bytes(records) <= 4 * |records|
  {
    if |records| > 0 {
      var last := records[|records| - 1].data;
      ShortBytes(records[..|records| - 1]);
      assert last[..0] == "" && ByteLen(last[..0]) == 0;
    }
  }

  lemma PageLength(records: seq<Record>, maxRecords: int, maxBytes: int, n: nat, k: nat)
    requires k <= n <= |records| && maxRecords >= 0 && Fits(records[..k], maxRecords, maxBytes)
    requires k == n || k == maxRecords
    ensures Longest(records, maxRecords, maxBytes, n) == k
  {
  }

  /** A page of as many records as are asked for. */
  lemma PageBefore(records: seq<Record>, limits: Limits, k: nat)
    requires 0 < k <= 2 && |records| == k + 1 && forall i :: 0 <= i < |records| ==> records[i].seqNo > 0
    requires forall i :: 0 <= i < k ==> |records[i].data| == 1
    requires limits.maxRecords == k && limits.maxBytes >= 8
    ensures Selected(records, 0, limits) == records[..k]
  {
    AfterSplit(records, 0, 0);
    assert records[0..] == records;
    ShortBytes(records[..k]);
    PageLength(records, limits.maxRecords, limits.maxBytes, |records|, k);
  }

  /** The numbers up to `m` are drawn, the last one by the last of at most two short records. */
  ghost predicate Drew(w: World, m: nat, t: int) {
    && w.st.nextSeq == m && 0 < |w.st.records| <= 2 && LastSeq(w.st.records) == m && Stale(w.st, t)
    && w.st.pending == map[] && w.st.committed == map[] && w.acked == {}
    && forall i :: 0 <= i < |w.st.records| ==> |w.st.records[i].data| == 1
  }

  lemma DrawnLater(env: Env, m: nat) returns (ws: seq<World>, es: seq<Event>, t: int)
    requires m > 1
    ensures Quiet(env, ws, es) && OnlyAdds(es) && Drew(ws[|es|], m, t)
  {
    var r;
    ws, es, r := FirstTick(env, "", 1);
    ws, es := Drip(env, ws, es, Tick("", 1), r, 1, m - 2);
    var w := ws[|es|];
    assert |w.st.records| == 1 && |w.st.records[0].data| == 1;
    ws, es, r := NextTick(env, ws, es, "", WINDOW + 2);
    t := 2 * WINDOW + 3;
  }

  lemma Drawn(env: Env, m: nat) returns (ws: seq<World>, es: seq<Event>, t: int)
    requires m > 0
    ensures Quiet(env, ws, es) && OnlyAdds(es) && Drew(ws[|es|], m, t)
  {
    if m == 1 {
      var r;
      ws, es, r := FirstTick(env, "", 1);
      t := WINDOW + 2;
    } else {
      ws, es, t := DrawnLater(env, m);
    }
  }

  /** The batch that a pull of everything gives when `k` of the `k + 1` records fit. */
  lemma PullBefore(env: Env, w: World, k: nat) returns (w': World)
    requires Kept(w) && 0 < k <= 2 && |w.st.records| == k + 1 && w.st.committed == map[]
    requires forall i :: 0 <= i < k ==> |w.st.records[i].data| == 1
    ensures FrontNext(env, w, Pull("", Committed, Some(Limits(k, DEFAULT_BYTES)), "id"), w')
    ensures var b := Batch("", w.st.records[k - 1].seqNo, w.st.records[..k]);
      w' == w.(st := w.st.(pending := w.st.pending["id" := b]))
  {
    var limits := Limits(k, DEFAULT_BYTES);
    AllMatch(env.glob, w.st.records);
    PageBefore(w.st.records, limits, k);
    w' := w.(st := PullFrom(env.glob, w.st, "", Committed, limits, "id").0);
  }

  /** A claim above the batch skips the record that follows it. */
  lemma ClaimSkips(env: Env, w: World, w': World, n: nat, x: Record)
    requires "id" in w.st.pending && w.st.pending["id"].path == "" && w.acked == {}
    requires Next(env, w, Acknowledge("id", Ack, At(n)), w')
    requires x in w.st.records && x.seqNo <= n
    requires forall y :: y in w.st.pending["id"].records ==> y.seqNo != x.seqNo
    ensures !SkipsNothing(env, w', "")
  {
    NoPatterns();
    assert x in w'.st.records && Matches(env.glob, x.source, "");
  }

  /** At most two records up to the number `m`, and the next one. */
  ghost predicate Following(w: World, k: nat, m: nat) {
    && 0 < k <= 2 && |w.st.records| == k + 1 && w.st.committed == map[] && w.acked == {}
    && w.st.records[k - 1].seqNo == m && w.st.records[k].seqNo == m + 1
    && forall i :: 0 <= i < k ==> |w.st.records[i].data| == 1
  }

  lemma DrawnAndNext(env: Env, m: nat) returns (ws: seq<World>, es: seq<Event>, k: nat)
    requires m > 0
    ensures Quiet(env, ws, es) && OnlyAdds(es) && Following(ws[|es|], k, m)
  {
    var ws0, es0, t := Drawn(env, m);
    var before := ws0[|es0|].st.records;
    k := |before|;
    var r;
    ws, es, r := NextTick(env, ws0, es0, "", t);
    assert ws[|es|].st.records[..k] == before;
  }

  lemma BatchOf(env: Env, ws: seq<World>, es: seq<Event>, k: nat, m: nat) returns (w: World)
    requires FrontRun(env, ws, es) && Kept(ws[|es|]) && Following(ws[|es|], k, m)
    ensures FrontReachable(env, w) && w.acked == {} && w.st.records == ws[|es|].st.records
    ensures "id" in w.st.pending && w.st.pending["id"] == Batch("", m, w.st.records[..k])
  {
    w := PullBefore(env, ws[|es|], k);
    var e := Pull("", Committed, Some(Limits(k, DEFAULT_BYTES)), "id");
    FrontSnoc(env, ws, es, e, w);
    var ws', es' := ws + [w], es + [e];
    assert FrontRun(env, ws', es') && ws'[|es'|] == w;
  }

  /** Careful clients bring about a batch with the cursor `m`, and a record right after it. */
  lemma BatchAndNext(env: Env, m: nat) returns (w: World, x: Record)
    requires m > 0
    ensures FrontReachable(env, w) && "id" in w.st.pending && w.acked == {}
    ensures w.st.pending["id"].path == "" && w.st.pending["id"].next == m
    ensures x in w.st.records && x.seqNo == m + 1
    ensures forall y :: y in w.st.pending["id"].records ==> y.seqNo != x.seqNo
  {
    var ws, es, k := DrawnAndNext(env, m);
    AddsAreFront(env, ws, es);
    FrontCareful(env, ws, es);
    w := BatchOf(env, ws, es, k, m);
    x := w.st.records[k];
  }

  /** Exactly the claims up to the batch's own cursor are safe. */
  lemma ClaimIsSafeIff(env: Env, m: nat, n: nat)
    requires m > 0
    ensures ClaimIsSafe(env, m, n) <==> n <= m
  {
    if n <= m {
      forall w, id, w' | FrontReachable(env, w) && id in w.st.pending && w.st.pending[id].next == m
        && Next(env, w, Acknowledge(id, Ack, At(n)), w')
        ensures SkipsNothing(env, w', w.st.pending[id].path)
      {
        SmallClaimIsSafe(env, w, id, n, w');
      }
    } else {
      var w, x := BatchAndNext(env, m);
      var w' := w.(st := AckStep(w.st, "id", Ack, At(n)).0, acked := w.acked + Tags(w.st.pending["id"]));
      ClaimSkips(env, w, w', n, x);
    }
  }

  // ---- The two paths of one scope ----

  ghost predicate EndsAt(b: Batch) {
    forall x :: x in b.records ==> x.seqNo <= b.next
  }

  /** What was acknowledged for a path is at or below its scope's cursor, and a batch ends at its
      own cursor. */
  ghost predicate AckedBelow(w: World) {
    && (forall t :: t in w.acked ==> t.1 <= Num(w.st.committed, Scope(t.0)))
    && (forall id :: id in w.st.pending ==> EndsAt(w.st.pending[id]))
  }

  lemma PageEndsAt(env: Env, w: World, path: string, start: int, limits: Limits)
    requires Kept(w) && limits.maxRecords > 0
    ensures var page := Selected(Matching(env.glob, w.st.records, path), start, limits);
      EndsAt(Batch(path, LastSeq(page), page))
  {
    var matching := Matching(env.glob, w.st.records, path);
    MatchingRising(env.glob, w.st.records, path, w.st.nextSeq);
    var p := SelectedIsPage(matching, w.st.nextSeq, start, limits);
    var page := Selected(matching, start, limits);
    var m := Seqs(matching);
    if |page| > 0 {
      LastOfPage(matching, page, p);
      forall x | x in page ensures x.seqNo <= LastSeq(page) {
        var i :| 0 <= i < |page| && page[i] == x;
        assert x == matching[p..][i];
        assert m[p + i] <= m[p + |page| - 1];
      }
    }
  }

  lemma PullAckedBelow(env: Env, w: World, path: string, cursor: Cursor, limits: Option<Limits>,
                       id: string, w': World)
    requires Kept(w) && AckedBelow(w) && Next(env, w, Pull(path, cursor, limits, id), w')
    ensures AckedBelow(w')
  {
    if limits.Some? && !cursor.Unreadable? {
      PageEndsAt(env, w, path, if cursor.At? then cursor.n else Num(w.st.committed, Scope(path)), limits.value);
    }
  }

  lemma AckAckedBelow(env: Env, w: World, id: string, verdict: Verdict, claim: Cursor, w': World)
    requires AckedBelow(w) && Next(env, w, Acknowledge(id, verdict, claim), w')
    ensures AckedBelow(w')
  {
    AckEffect(w.st, id, verdict, claim);
    forall t | t in w'.acked ensures t.1 <= Num(w'.st.committed, Scope(t.0)) {
      assert Num(w.st.committed, Scope(t.0)) <= Num(w'.st.committed, Scope(t.0));
      if t !in w.acked {
        assert EndsAt(w.st.pending[id]);
      }
    }
  }

  lemma StepAckedBelow(env: Env, w: World, e: Event, w': World)
    requires Kept(w) && AckedBelow(w) && Next(env, w, e, w')
    ensures AckedBelow(w')
  {
    match e
    case Add(lines) => AddLeavesRest(env.digest, w.st, lines);
    case Pull(path, cursor, limits, id) => PullAckedBelow(env, w, path, cursor, limits, id, w');
    case Acknowledge(id, verdict, claim) => AckAckedBelow(env, w, id, verdict, claim, w');
  }

  lemma RunAckedBelow(env: Env, ws: seq<World>, es: seq<Event>)
    requires Run(env, ws, es)
    ensures forall i :: 0 <= i < |ws| ==> AckedBelow(ws[i])
  {
    var next := (w: World, e: Event, w': World) => Next(env, w, e, w');
    var inv := (w: World) => Kept(w) && AckedBelow(w);
    forall w, e, w' | inv(w) && next(w, e, w') ensures inv(w') {
      StepKeeps(env, w, e, w');
      StepAckedBelow(env, w, e, w');
    }
    InitialKept(ws[0]);
    Invariant(next, ws, es, inv);
    assert forall i :: 0 <= i < |ws| ==> inv(ws[i]);
  }

  /** How far an accepted acknowledgement of the batch moves the cursor, if it is not there yet. */
  function MovedTo(b: Batch, claim: Cursor): int {
    if claim.At? then Max(b.next, claim.n) else b.next
  }

  /** A matching record is buffered in the interval that the cursor moves over. */
  ghost predicate Passes(env: Env, w: World, path: string, to: int) {
    exists r :: r in w.st.records && Matches(env.glob, r.source, path)
      && Num(w.st.committed, Scope(path)) < r.seqNo <= to
  }

  lemma CollidingStep(env: Env, w: World, id: string, claim: Cursor, w': World, p: string)
    requires AckedBelow(w) && Next(env, w, Acknowledge(id, Ack, claim), w')
    requires id in w.st.pending && !claim.Unreadable?
    requires p != w.st.pending[id].path && Scope(p) == Scope(w.st.pending[id].path) && SkipsNothing(env, w, p)
    ensures SkipsNothing(env, w', p) <==> !Passes(env, w, p, MovedTo(w.st.pending[id], claim))
  {
    var b := w.st.pending[id];
    var to := MovedTo(b, claim);
    assert w'.st == CommittedBy(w.st.(pending := w.st.pending - {id}), b, to);
    assert w'.acked == w.acked + Tags(b);
    forall s ensures (p, s) in w'.acked <==> (p, s) in w.acked {
    }
    if Passes(env, w, p, to) {
      var r :| r in w.st.records && Matches(env.glob, r.source, p) && Num(w.st.committed, Scope(p)) < r.seqNo <= to;
      assert (p, r.seqNo) !in w.acked;
      assert r in w'.st.records && r.seqNo <= Num(w'.st.committed, Scope(p));
    } else {
      forall r | r in w'.st.records && Matches(env.glob, r.source, p) && r.seqNo <= Num(w'.st.committed, Scope(p))
        ensures (p, r.seqNo) in w'.acked
      {
        assert r.seqNo <= Num(w.st.committed, Scope(p));
      }
    }
  }

  /** In any run: an acknowledgement for one of the two paths that share a scope keeps the
      promise to the other one exactly when the cursor passes no record that the other matches. */
  lemma CollidingAckIff(env: Env, ws: seq<World>, es: seq<Event>, i: nat, p: string)
    requires Run(env, ws, es) && i < |es|
    requires es[i].Acknowledge? && es[i].verdict.Ack? && !es[i].claim.Unreadable? && es[i].batchId in ws[i].st.pending
    requires var b := ws[i].st.pending[es[i].batchId];
      p != b.path && Scope(p) == Scope(b.path) && SkipsNothing(env, ws[i], p)
    ensures SkipsNothing(env, ws[i + 1], p) <==>
      !Passes(env, ws[i], p, MovedTo(ws[i].st.pending[es[i].batchId], es[i].claim))
  {
    RunAckedBelow(env, ws, es);
    var next := (w: World, e: Event, w': World) => Next(env, w, e, w');
    assert next(ws[i], es[i], ws[i + 1]);
    CollidingStep(env, ws[i], es[i].batchId, es[i].claim, ws[i + 1], p);
  }

  // ---- The batch's own path ----

  /** A matching record that the batch does not hold is buffered in the interval that the cursor
      moves over. */
  ghost predicate LeavesOut(env: Env, w: World, b: Batch, to: int) {
    exists r :: r in w.st.records && Matches(env.glob, r.source, b.path)
      && Num(w.st.committed, Scope(b.path)) < r.seqNo <= to && !Holds(b, r.seqNo)
  }

  lemma OwnStep(env: Env, w: World, id: string, claim: Cursor, w': World)
    requires AckedBelow(w) && Next(env, w, Acknowledge(id, Ack, claim), w')
    requires id in w.st.pending && !claim.Unreadable? && SkipsNothing(env, w, w.st.pending[id].path)
    ensures var b := w.st.pending[id];
      SkipsNothing(env, w', b.path) <==> !LeavesOut(env, w, b, MovedTo(b, claim))
  {
    var b := w.st.pending[id];
    var p, to := b.path, MovedTo(b, claim);
    assert w'.st == CommittedBy(w.st.(pending := w.st.pending - {id}), b, to);
    assert w'.acked == w.acked + Tags(b);
    assert forall s :: (p, s) in w'.acked <==> (p, s) in w.acked || Holds(b, s);
    if LeavesOut(env, w, b, to) {
      var r :| r in w.st.records && Matches(env.glob, r.source, p)
        && Num(w.st.committed, Scope(p)) < r.seqNo <= to && !Holds(b, r.seqNo);
      assert (p, r.seqNo) !in w.acked;
      assert r in w'.st.records && r.seqNo <= Num(w'.st.committed, Scope(p));
    } else {
      forall r | r in w'.st.records && Matches(env.glob, r.source, p) && r.seqNo <= Num(w'.st.committed, Scope(p))
        ensures (p, r.seqNo) in w'.acked
      {
        assert r.seqNo <= Num(w.st.committed, Scope(p)) || Holds(b, r.seqNo);
      }
    }
  }

  /** In any run, whatever cursors the clients pull with: an acknowledgement keeps the promise to
      its batch's path exactly when the batch holds every matching record that the cursor moves
      over. */
  lemma OwnAckIff(env: Env, ws: seq<World>, es: seq<Event>, i: nat)
    requires Run(env, ws, es) && i < |es|
    requires es[i].Acknowledge? && es[i].verdict.Ack? && !es[i].claim.Unreadable? && es[i].batchId in ws[i].st.pending
    requires SkipsNothing(env, ws[i], ws[i].st.pending[es[i].batchId].path)
    ensures var b := ws[i].st.pending[es[i].batchId];
      SkipsNothing(env, ws[i + 1], b.path) <==> !LeavesOut(env, ws[i], b, MovedTo(b, es[i].claim))
  {
    RunAckedBelow(env, ws, es);
    var next := (w: World, e: Event, w': World) => Next(env, w, e, w');
    assert next(ws[i], es[i], ws[i + 1]);
    OwnStep(env, ws[i], es[i].batchId, es[i].claim, ws[i + 1]);
  }

  // ---- Runs that break a promise ----

  /** The request for one record. */
  function AskOne(path: string): Event {
    Pull(path, Committed, Some(Limits(1, DEFAULT_BYTES)), "id")
  }

  /** A pull for a path that only one record after its cursor matches. */
  lemma PulledOne(env: Env, w: World, path: string, r: Record) returns (w': World)
    requires Matching(env.glob, w.st.records, path) == [r] && r.seqNo > 0 && w.st.committed == map[]
    ensures QuietNext(env, w, AskOne(path), w')
    ensures w' == w.(st := w.st.(pending := w.st.pending["id" := Batch(path, r.seqNo, [r])]))
  {
    var matching, limits := [r], Limits(1, DEFAULT_BYTES);
    AfterSplit(matching, 0, 0);
    PageLength(matching, 1, DEFAULT_BYTES, 1, 1);
    assert Selected(matching, 0, limits) == matching;
    w' := w.(st := PullFrom(env.glob, w.st, path, Committed, limits, "id").0);
  }

  /** Its acknowledgement. */
  lemma AckedOne(env: Env, w: World, path: string, r: Record) returns (w': World)
    requires w.st.committed == map[] && r.seqNo > 0
    requires "id" in w.st.pending && w.st.pending["id"] == Batch(path, r.seqNo, [r])
    ensures QuietNext(env, w, Acknowledge("id", Ack, Committed), w') && CommittedBatch(w, "id", w')
    ensures w'.st.records == w.st.records && w'.st.committed == map[Scope(path) := r.seqNo]
    ensures w'.ledger == w.ledger && w'.acked == w.acked + {(path, r.seqNo)}
  {
    var b := w.st.pending["id"];
    w' := w.(st := AckStep(w.st, "id", Ack, Committed).0, acked := w.acked + Tags(b));
    assert Tags(b) == {(path, r.seqNo)};
  }

  /** A pull of everything from past the first of two records. */
  lemma PulledSecond(env: Env, w: World, x: Record, y: Record) returns (w': World)
    requires w.st.records == [x, y] && 0 <= x.seqNo < y.seqNo
    ensures Next(env, w, Pull("", At(x.seqNo), Some(Limits(1, DEFAULT_BYTES)), "id"), w')
    ensures w' == w.(st := w.st.(pending := w.st.pending["id" := Batch("", y.seqNo, [y])]))
  {
    var matching, limits := [x, y], Limits(1, DEFAULT_BYTES);
    AllMatch(env.glob, w.st.records);
    AfterSplit(matching, x.seqNo, 1);
    assert matching[1..] == [y];
    PageLength([y], 1, DEFAULT_BYTES, 1, 1);
    assert Selected(matching, x.seqNo, limits) == [y];
    w' := w.(st := PullFrom(env.glob, w.st, "", At(x.seqNo), limits, "id").0);
  }

  /** A run that buffers two records of these sources. */
  lemma TwoTicks(env: Env, a: string, b: string) returns (ws: seq<World>, es: seq<Event>)
    ensures Quiet(env, ws, es)
    ensures var w := ws[|es|];
      && |w.st.records| == 2 && w.st.committed == map[] && w.acked == {}
      && w.st.records[0].source == a && w.st.records[0].seqNo == 1
      && w.st.records[1].source == b && w.st.records[1].seqNo == 2
  {
    var r;
    ws, es, r := FirstTick(env, a, 1);
    ws, es, r := NextTick(env, ws, es, b, WINDOW + 2);
  }

  /** A pull with a cursor of the client's own past the first one, and its acknowledgement. */
  lemma SecondOnly(env: Env, ws: seq<World>, es: seq<Event>, x: Record, y: Record)
    returns (ws': seq<World>, es': seq<Event>)
    requires Run(env, ws, es) && ws[|es|].st.records == [x, y] && 0 <= x.seqNo < y.seqNo
    requires ws[|es|].st.committed == map[] && ws[|es|].acked == {}
    ensures Run(env, ws', es') && ws'[|es'|].st.records == [x, y]
    ensures ws'[|es'|].st.committed == map[Scope("") := y.seqNo] && ws'[|es'|].acked == {("", y.seqNo)}
  {
    var pulled := PulledSecond(env, ws[|es|], x, y);
    var e := Pull("", At(x.seqNo), Some(Limits(1, DEFAULT_BYTES)), "id");
    RunSnoc(env, ws, es, e, pulled);
    var acked := AckedOne(env, pulled, "", y);
    RunSnoc(env, ws + [pulled], es + [e], Acknowledge("id", Ack, Committed), acked);
    ws', es' := ws + [pulled] + [acked], es + [e] + [Acknowledge("id", Ack, Committed)];
  }

  /** Where that breaks the promise: the first of two records is skipped. */
  lemma ExplicitSkips(env: Env) returns (ws: seq<World>, es: seq<Event>)
    ensures Run(env, ws, es) && !SkipsNothing(env, ws[|es|], "")
  {
    ws, es := TwoTicks(env, "", "");
    QuietIsRun(env, ws, es);
    var x, y := ws[|es|].st.records[0], ws[|es|].st.records[1];
    ws, es := SecondOnly(env, ws, es, x, y);
    NoPatterns();
    assert ws[|es|].st.records[0] == x;
    assert Matches(env.glob, x.source, "");
  }

  /** A run goes on with a pull of the one record that a path matches, and its acknowledgement. */
  lemma ServeOne(env: Env, ws: seq<World>, es: seq<Event>, path: string, r: Record)
    returns (ws': seq<World>, es': seq<Event>)
    requires Quiet(env, ws, es) && Matching(env.glob, ws[|es|].st.records, path) == [r]
    requires r.seqNo > 0 && ws[|es|].st.committed == map[] && ws[|es|].acked == {}
    ensures Quiet(env, ws', es') && ws <= ws' && es <= es'
    ensures var w, w' := ws[|es|], ws'[|es'|];
      && w'.st.records == w.st.records && w'.st.committed == map[Scope(path) := r.seqNo]
      && w'.acked == {(path, r.seqNo)}
  {
    var pulled := PulledOne(env, ws[|es|], path, r);
    QuietSnoc(env, ws, es, AskOne(path), pulled);
    var acked := AckedOne(env, pulled, path, r);
    QuietSnoc(env, ws + [pulled], es + [AskOne(path)], Acknowledge("id", Ack, Committed), acked);
    ws', es' := ws + [pulled] + [acked], es + [AskOne(path)] + [Acknowledge("id", Ack, Committed)];
  }

  lemma StarPattern()
    ensures Patterns("*") == ["*"]
  {
    SplitWhole("*", ',');
    TrimTight(Go, "*");
    FlatMapOne("*", KeptLine);
  }

  lemma MatchesBy(glob: (string, string) -> bool, source: string, path: string, pattern: string)
    requires |source| > 0 && Tight(Go, source) && glob(pattern, source)
    requires |Patterns(path)| == 0 || Patterns(path) == [pattern]
    ensures Matches(glob, source, path)
  {
    TrimTight(Go, source);
    if |Patterns(path)| > 0 {
      assert Patterns(path)[0] == pattern;
    }
  }

  lemma BothMatch(env: Env, path: string)
    requires (path == "" || path == "*") && env.glob("*", "a")
    ensures Matches(env.glob, "a", path)
  {
    NoPatterns();
    StarPattern();
    MatchesBy(env.glob, "a", path, "*");
  }

  lemma OneMatches(env: Env, records: seq<Record>, path: string)
    requires |records| == 1 && records[0].source == "a" && (path == "" || path == "*") && env.glob("*", "a")
    ensures Matching(env.glob, records, path) == [records[0]]
  {
    BothMatch(env, path);
    assert |records[..0]| == 0;
  }

  lemma OtherIsSkipped(env: Env, w: World, p: string, q: string)
    requires p != q && Scope(p) == Scope(q) && env.glob("*", "a")
    requires |w.st.records| == 1 && w.st.records[0].source == "a"
    requires var n := w.st.records[0].seqNo;
      w.st.committed == map[Scope(q) := n] && w.acked == {(q, n)}
    ensures !SkipsNothing(env, w, p)
  {
    BothMatch(env, p);
    assert w.st.records[0] in w.st.records;
  }

  /** Where the promise breaks, in either direction: one record that both paths match, pulled
      and acknowledged for `q`, is below the cursor of `p` too, which was never sent it. */
  lemma CollisionSkips(env: Env, p: string, q: string) returns (ws: seq<World>, es: seq<Event>)
    requires p != q && Scope(p) == Scope(q) && env.glob("*", "a")
    ensures Run(env, ws, es) && !SkipsNothing(env, ws[|es|], p)
  {
    var r;
    ws, es, r := FirstTick(env, "a", 1);
    var records := ws[|es|].st.records;
    OneMatches(env, records, q);
    ws, es := ServeOne(env, ws, es, q, records[0]);
    QuietIsRun(env, ws, es);
    OtherIsSkipped(env, ws[|es|], p, q);
  }

  ghost predicate AckedAnywhere(w: World, seqNo: int) {
    exists path :: (path, seqNo) in w.acked
  }

  lemma NotByStar(env: Env)
    requires !env.glob("*", "d/a")
    ensures !Matches(env.glob, "d/a", "*")
  {
    StarPattern();
    TrimTight(Go, "d/a");
  }

  lemma OnlyLast(env: Env, records: seq<Record>, x: Record, y: Record)
    requires records == [x, y] && x.source == "d/a" && y.source == "a" && !env.glob("*", "d/a") && env.glob("*", "a")
    ensures Matching(env.glob, records, "*") == [y]
  {
    NotByStar(env);
    BothMatch(env, "*");
    var before := [x];
    assert |before[..0]| == 0;
    assert records[..1] == before;
    assert |Matching(env.glob, before, "*")| == 0;
  }

  /** A record can be skipped without having been sent to anyone: one that "*" does not match,
      buffered before one that it matches, a pull for "*" and its acknowledgement. A pull of
      everything then starts after the first record. */
  lemma StarSkips(env: Env) returns (ws: seq<World>, es: seq<Event>, x: Record)
    requires !env.glob("*", "d/a") && env.glob("*", "a")
    ensures Run(env, ws, es) && x in ws[|es|].st.records
    ensures x.seqNo <= Num(ws[|es|].st.committed, Scope("")) && !AckedAnywhere(ws[|es|], x.seqNo)
  {
    ws, es := TwoTicks(env, "d/a", "a");
    x := ws[|es|].st.records[0];
    var y := ws[|es|].st.records[1];
    OnlyLast(env, ws[|es|].st.records, x, y);
    ws, es := ServeOne(env, ws, es, "*", y);
    QuietIsRun(env, ws, es);
  }
}
