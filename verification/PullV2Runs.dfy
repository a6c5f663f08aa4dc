/** What holds over whole runs of the pull service: nothing is lost, no checkpoint runs ahead
    of the acknowledgements, and exactly when an explicit cursor breaks the first of these. */
module PullV2Runs {
  import opened Prelude
  import opened Runs
  import opened Text
  import opened PullV2

  /** Every reachable world is well shaped, whatever cursors and orders were used. */
  lemma RunShape(maxBuffered: int, ws: seq<World>, es: seq<Event>)
    requires Run(maxBuffered, ws, es)
    ensures forall i :: 0 <= i < |ws| ==> Shape(ws[i])
  {
    InitShape(maxBuffered);
    forall w, e, w' | Shape(w) && Next(w, e, w') ensures Shape(w') {
      StepKeepsShape(w, e, w');
    }
    Invariant(Next, ws, es, Shape);
  }

  /** A step whose pull, if it is one, uses the empty cursor. */
  ghost predicate FrontNext(w: World, e: Event, w': World) {
    Next(w, e, w') && (e.Pull? ==> e.cursor.Committed?)
  }

  ghost predicate FrontRun(maxBuffered: int, ws: seq<World>, es: seq<Event>) {
    Steps(FrontNext, ws, es) && ws[0] == InitWorld(maxBuffered)
  }

  /** Every record ever buffered is still buffered or was in an accepted batch. */
  ghost predicate NoLossAt(w: World, k: string) {
    var log := Buf(w.log, k);
    forall i :: 0 <= i < |log| ==> log[i] in Buf(w.svc.records, k) || (k, log[i]) in w.acked
  }

  ghost predicate NoLoss(w: World) {
    forall k :: NoLossAt(w, k)
  }

  /** Everything up to the highest acknowledged number was acknowledged, and every pending
      batch starts no later than the record after it. */
  ghost predicate CoveredAt(w: World, k: string) {
    forall i :: 0 <= i < Num(w.high, k) && i < |Buf(w.log, k)| ==> (k, Buf(w.log, k)[i]) in w.acked
  }

  ghost predicate StartsLow(w: World, b: Batch) {
    b.next - |b.records| <= Num(w.high, b.source)
  }

  ghost predicate Covered(w: World) {
    && (forall k :: CoveredAt(w, k))
    && (forall id :: id in w.svc.pending ==> StartsLow(w, w.svc.pending[id]))
  }

  lemma CoveredMeansNoLoss(w: World)
    requires Shape(w) && Covered(w)
    ensures NoLoss(w)
  {
    forall k ensures NoLossAt(w, k) {
      assert SourceShape(w, k) && CoveredAt(w, k);
      forall i | Num(w.high, k) <= i < |Buf(w.log, k)| ensures Buf(w.log, k)[i] in Buf(w.svc.records, k) {
        assert Buf(w.svc.records, k)[i - Num(w.high, k)] == Buf(w.log, k)[i];
      }
    }
  }

  /** Covered speaks only of what a step that commits nothing leaves alone. */
  lemma GrownCovered(w: World, w': World)
    requires Shape(w) && Covered(w) && w'.acked == w.acked && w'.high == w.high
    requires forall k :: Buf(w.log, k) <= Buf(w'.log, k)
    ensures forall k :: CoveredAt(w', k)
    ensures forall b :: StartsLow(w, b) ==> StartsLow(w', b)
  {
    forall k ensures CoveredAt(w', k) {
      assert CoveredAt(w, k) && SourceShape(w, k);
    }
  }

  lemma AppendKeepsCovered(w: World, key: string, items: seq<Record>, now: int, w': World)
    requires Shape(w) && Covered(w) && Next(w, Append(key, items, now), w')
    ensures Covered(w')
  {
    AppendKeepsShape(w, key, items, now, w');
    AppendEffect(w, key, items, now, w');
    GrownCovered(w, w');
  }

  /** A pull from the committed position selects from the front of the buffer. */
  lemma FrontOfBuffer(w: World, k: string, start: nat)
    requires Shape(w) && start <= Num(w.high, k)
    ensures After(Buf(w.svc.records, k), start) == Buf(w.svc.records, k)
  {
    assert SourceShape(w, k);
    AfterOfLog(Buf(w.log, k), Num(w.high, k), start);
  }

  lemma PulledStartsLow(w: World, k: string, max: nat, id: string)
    requires Shape(w) && max > 0
    ensures var svc := PullFrom(w.svc, k, Num(w.svc.committed, k), max, id).0;
      svc == w.svc || (id in svc.pending && svc == w.svc.(pending := w.svc.pending[id := svc.pending[id]])
                       && StartsLow(w, svc.pending[id]))
  {
    assert SourceShape(w, k);
    SelectedShape(w, k, Num(w.svc.committed, k), max);
  }

  lemma PullKeepsCovered(w: World, key: string, max: int, id: string, w': World)
    requires Shape(w) && Covered(w) && Next(w, Pull(key, Cursor.Committed, max, id), w')
    ensures Covered(w')
  {
    PulledStartsLow(w, key, PullLimit(max), id);
    GrownCovered(w, w');
  }

  lemma CommitKeepsCovered(w: World, id: string, b: Batch, w': World)
    requires Shape(w) && Covered(w) && w'.log == w.log && Commits(w, id, b, w')
    ensures Covered(w')
  {
    assert BatchShape(w, b) && StartsLow(w, b);
    forall k ensures CoveredAt(w', k) {
      assert CoveredAt(w, k);
      if k == b.source {
        var log := Buf(w.log, k);
        forall i | 0 <= i < Num(w'.high, k) && i < |log| ensures (k, log[i]) in w'.acked {
          if i >= Num(w.high, k) {
            assert b.records[i - (b.next - |b.records|)] == log[i];
          }
        }
      }
    }
    forall i | i in w'.svc.pending ensures StartsLow(w', w'.svc.pending[i]) {
      assert StartsLow(w, w.svc.pending[i]);
    }
  }

  lemma AckKeepsCovered(w: World, req: AckRequest, saver: bool, w': World)
    requires Shape(w) && Covered(w) && Next(w, Ack(req, saver), w')
    ensures Covered(w')
  {
    AckEffect(w, req, saver, w');
    if AckAccepted(w, req, w') {
      CommitKeepsCovered(w, req.batchId, Addressed(w.svc, req).value, w');
    } else {
      GrownCovered(w, w');
    }
  }

  ghost predicate Sound(w: World) {
    Shape(w) && Covered(w)
  }

  lemma StepKeepsSound(w: World, e: Event, w': World)
    requires Sound(w) && FrontNext(w, e, w')
    ensures Sound(w')
  {
    StepKeepsShape(w, e, w');
    match e
    case Append(key, items, now) => AppendKeepsCovered(w, key, items, now, w');
    case Pull(key, cursor, max, id) => PullKeepsCovered(w, key, max, id, w');
    case Ack(req, saver) => AckKeepsCovered(w, req, saver, w');
  }

  lemma RunSound(maxBuffered: int, ws: seq<World>, es: seq<Event>)
    requires FrontRun(maxBuffered, ws, es)
    ensures forall i :: 0 <= i < |ws| ==> Sound(ws[i])
  {
    InitShape(maxBuffered);
    forall w, e, w' | Sound(w) && FrontNext(w, e, w') ensures Sound(w') {
      StepKeepsSound(w, e, w');
    }
    Invariant(FrontNext, ws, es, Sound);
  }

  lemma SoundLosesNothing(w: World, k: string, n: int)
    requires Sound(w) && 1 <= n <= Num(w.svc.nextSeq, k)
    ensures exists x: Buffered ::
      x.seqNo == n && x in Buf(w.log, k) && (x in Buf(w.svc.records, k) || (k, x) in w.acked)
  {
    CoveredMeansNoLoss(w);
    assert SourceShape(w, k) && NoLossAt(w, k);
    assert Buf(w.log, k)[n - 1] in Buf(w.log, k);
  }

  /** In every run whose pulls use the empty cursor, each number from 1 to nextSeq of a source
      belongs to one record, which is still buffered or was in an accepted batch. */
  lemma NothingIsLost(maxBuffered: int, ws: seq<World>, es: seq<Event>, k: string, n: int)
    requires FrontRun(maxBuffered, ws, es)
    requires 1 <= n <= Num(ws[|es|].svc.nextSeq, k)
    ensures var w := ws[|es|];
      exists x: Buffered :: x.seqNo == n && x in Buf(w.log, k) && (x in Buf(w.svc.records, k) || (k, x) in w.acked)
  {
    RunSound(maxBuffered, ws, es);
    SoundLosesNothing(ws[|es|], k, n);
  }

  // ---- Explicit cursors ----

  lemma OverlapLosesNothing(w: World, b: Batch, w': World)
    requires SourceShape(w, b.source) && NoLoss(w) && BatchShape(w, b)
    requires Buf(w.svc.records, b.source) == [] || b.next - |b.records| <= Num(w.high, b.source)
    requires w'.log == w.log && w'.acked == w.acked + Tagged(b)
    requires forall k :: k != b.source ==> Buf(w'.svc.records, k) == Buf(w.svc.records, k)
    requires Buf(w'.svc.records, b.source) == After(Buf(w.svc.records, b.source), b.next)
    ensures NoLoss(w')
  {
    var log, high, first := Buf(w.log, b.source), Num(w.high, b.source), b.next - |b.records|;
    AfterOfLog(log, high, b.next);
    forall k ensures NoLossAt(w', k) {
      assert NoLossAt(w, k);
      if k == b.source {
        forall i | 0 <= i < |log| ensures log[i] in Buf(w'.svc.records, k) || (k, log[i]) in w'.acked {
          if i < high {
            assert forall x :: x in log[high..] ==> x.seqNo > high;
          } else if i >= b.next {
            assert log[Max(high, b.next)..][i - Max(high, b.next)] == log[i];
          } else {
            assert b.records[i - first] == log[i] && (k, log[i]) in Tagged(b);
          }
        }
      }
    }
  }

  /** The numbers of a batch are the ones up to its cursor. */
  lemma BatchNumbers(w: World, b: Batch, i: nat)
    requires Shape(w) && BatchShape(w, b) && i < |b.records|
    ensures b.records[i].seqNo == b.next - |b.records| + i + 1
  {
    assert SourceShape(w, b.source);
    assert b.records[i] == Buf(w.log, b.source)[b.next - |b.records| + i];
  }

  lemma SkippedIsLost(w: World, b: Batch, w': World)
    requires Shape(w) && BatchShape(w, b) && b.next - |b.records| > Num(w.high, b.source)
    requires w'.log == w.log && w'.acked == w.acked + Tagged(b)
    requires Buf(w'.svc.records, b.source) == After(Buf(w.svc.records, b.source), b.next)
    ensures !NoLoss(w')
  {
    var log, high := Buf(w.log, b.source), Num(w.high, b.source);
    assert SourceShape(w, b.source);
    AfterOfLog(log, high, b.next);
    var x := log[high];
    assert x.seqNo == high + 1;
    forall i | 0 <= i < |b.records| ensures b.records[i] != x {
      BatchNumbers(w, b, i);
    }
    assert (b.source, x) !in w.acked;
    assert x !in Buf(w'.svc.records, b.source);
    assert !NoLossAt(w', b.source);
  }

  lemma CommitLosesNothingIff(w: World, id: string, b: Batch, w': World)
    requires Shape(w) && NoLoss(w) && w'.log == w.log && Commits(w, id, b, w')
    ensures var buf := Buf(w.svc.records, b.source);
      && b.records != []
      && (NoLoss(w') <==> buf == [] || b.records[0].seqNo <= buf[0].seqNo)
  {
    var k := b.source;
    assert BatchShape(w, b) && SourceShape(w, k);
    var log, buf, high := Buf(w.log, k), Buf(w.svc.records, k), Num(w.high, k);
    var first := b.next - |b.records|;
    assert b.records[0] == log[first];
    AfterOfLog(log, high, b.next);
    if buf != [] && first > high {
      SkippedIsLost(w, b, w');
    } else {
      OverlapLosesNothing(w, b, w');
    }
  }

  /** An accepted acknowledgement loses nothing exactly when its batch starts no later than
      the oldest buffered record of its source. */
  lemma AckLosesNothingIff(w: World, req: AckRequest, saver: bool, w': World)
    requires Shape(w) && NoLoss(w) && Next(w, Ack(req, saver), w') && AckAccepted(w, req, w')
    ensures var b := Addressed(w.svc, req).value;
      var buf := Buf(w.svc.records, b.source);
      && b.records != []
      && (NoLoss(w') <==> buf == [] || b.records[0].seqNo <= buf[0].seqNo)
  {
    AckEffect(w, req, saver, w');
    CommitLosesNothingIff(w, req.batchId, Addressed(w.svc, req).value, w');
  }

  lemma {:induction false} LatestExists(records: seq<Buffered>) returns (latest: map<string, int>)
    ensures IsLatest(records, latest)
  {
    latest := map[];
    if records != [] {
      var n := |records| - 1;
      var m := LatestExists(records[..n]);
      var x := records[n];
      var f := x.record.filePath;
      assert records == records[..n] + [x];
      latest := if HasOffset(x) && (f !in m || m[f] < x.record.offset) then m[f := x.record.offset] else m;
    }
  }

  /** Without a saver an acknowledgement of a pending batch is always accepted. */
  lemma CommitUnsaved(w: World, id: string) returns (w': World)
    requires Shape(w) && id in w.svc.pending && id != []
    ensures Next(w, Ack(AckRequest(id, false, ""), false), w') && w'.log == w.log
    ensures Commits(w, id, w.svc.pending[id], w')
  {
    var b, req := w.svc.pending[id], AckRequest(id, false, "");
    var latest := LatestExists(b.records);
    var out := Accepted(latest != map[], b.source, FormatNat(b.next));
    w' := w.(svc := Commit(w.svc, id, b), high := w.high[b.source := Max(Num(w.high, b.source), b.next)],
             named := w.named + Tagged(b), acked := w.acked + Tagged(b));
    var fails := (c: SaveCall) => false;
    assert SavedWith(latest, w.svc, id, b, false, fails, w'.svc, [], out);
    assert AckNext(w, req, false, fails, [], out, w');
  }

  /** The condition can fail: with at least two records buffered, pulling one record from
      just past the oldest and acknowledging that batch drops the oldest one, which no
      accepted batch contained. */
  lemma ExplicitCursorLoses(w: World, k: string, id: string) returns (w1: World, w2: World)
    requires Shape(w) && NoLoss(w) && |Buf(w.svc.records, k)| >= 2 && k != [] && id != []
    ensures Next(w, Pull(k, At(Buf(w.svc.records, k)[0].seqNo), 1, id), w1)
    ensures Next(w1, Ack(AckRequest(id, false, ""), false), w2) && !NoLoss(w2)
  {
    var buf, start := Buf(w.svc.records, k), Buf(w.svc.records, k)[0].seqNo;
    w1 := w.(svc := PullStep(w.svc, k, At(start), 1, id).0);
    assert SourceShape(w, k);
    SelectedShape(w, k, start, 1);
    var b := w1.svc.pending[id];
    PullKeepsShape(w, k, At(start), 1, id, w1);
    w2 := CommitUnsaved(w1, id);
    SkippedIsLost(w1, b, w2);
  }

  /** Such a world is reached by appending two records to a new service. */
  lemma TwoBuffered(r: Record) returns (w: World)
    ensures Next(InitWorld(10), Append("s", [r, r], 1), w) && Shape(w) && NoLoss(w)
    ensures |Buf(w.svc.records, "s")| == 2
  {
    var w0 := InitWorld(10);
    var items := Numbered("s", 0, 1, [r, r]);
    w := w0.(svc := AppendStep(w0.svc, "s", [r, r], 1).0, log := w0.log["s" := Buf(w0.log, "s") + items]);
    InitShape(10);
    AppendKeepsShape(w0, "s", [r, r], 1, w);
    assert Covered(w0) by { forall k ensures CoveredAt(w0, k) {} }
    AppendKeepsCovered(w0, "s", [r, r], 1, w);
    CoveredMeansNoLoss(w);
    assert SourceShape(w, "s");
  }

  // ---- Checkpoints ----

  /** The records of one file of one source were buffered with strictly increasing offsets. */
  ghost predicate IncreasingOffsets(log: seq<Buffered>, file: string) {
    forall i, j :: 0 <= i < j < |log| && log[i].record.filePath == file && log[j].record.filePath == file
      ==> log[i].record.offset < log[j].record.offset
  }

  /** Every record of the file up to the saved offset was named by a non-nack acknowledgement. */
  ghost predicate Behind(w: World, c: SaveCall) {
    forall x :: x in Buf(w.log, c.source) && x.record.filePath == c.filePath && x.record.offset <= c.offset
      ==> (c.source, x) in w.named
  }

  predicate Anchor(x: Buffered, c: SaveCall) {
    x.record.filePath == c.filePath && x.record.offset == c.offset
  }

  /** The saved offset is that of some buffered record of the file. */
  ghost predicate Anchored(w: World, c: SaveCall) {
    exists i :: 0 <= i < |Buf(w.log, c.source)| && Anchor(Buf(w.log, c.source)[i], c)
  }

  lemma AnchoredStaysBehind(w: World, w': World, c: SaveCall)
    requires Buf(w.log, c.source) <= Buf(w'.log, c.source) && w.named <= w'.named
    requires Anchored(w, c) && Behind(w, c)
    requires IncreasingOffsets(Buf(w'.log, c.source), c.filePath)
    ensures Anchored(w', c) && Behind(w', c)
  {
    var log, log' := Buf(w.log, c.source), Buf(w'.log, c.source);
    var i :| 0 <= i < |log| && Anchor(log[i], c);
    assert Anchor(log'[i], c);
    forall x | x in log' && x.record.filePath == c.filePath && x.record.offset <= c.offset
      ensures (c.source, x) in w'.named
    {
      var j :| 0 <= j < |log'| && log'[j] == x;
      assert j <= i && log[j] == x;
      assert x in log;
    }
  }

  lemma LatestComesFrom(b: Batch, latest: map<string, int>, file: string) returns (q: nat)
    requires IsLatest(b.records, latest) && file in latest
    ensures q < |b.records| && b.records[q].record.filePath == file && b.records[q].record.offset == latest[file]
  {
    var x :| x in b.records && HasOffset(x) && x.record.filePath == file && x.record.offset == latest[file];
    q :| 0 <= q < |b.records| && b.records[q] == x;
  }

  lemma OffsetOrder(log: seq<Buffered>, file: string, i: nat, j: nat)
    requires IncreasingOffsets(log, file) && i < |log| && j < |log|
    requires log[i].record.filePath == file && log[j].record.filePath == file
    requires log[j].record.offset <= log[i].record.offset
    ensures j <= i
  {
  }

  /** With everything before the batch named, naming the batch names every record of the file
      up to the offset of the batch's record `q`. */
  lemma NamedUpTo(source: string, log: seq<Buffered>, first: nat, n: nat, q: nat, file: string,
                  named: set<(string, Buffered)>)
    requires first <= q < n <= |log|
    requires forall i :: 0 <= i < n ==> (source, log[i]) in named
    requires log[q].record.filePath == file && IncreasingOffsets(log, file)
    ensures forall x | x in log && x.record.filePath == file && x.record.offset <= log[q].record.offset ::
              (source, x) in named
  {
    forall x | x in log && x.record.filePath == file && x.record.offset <= log[q].record.offset
      ensures (source, x) in named
    {
      var j :| 0 <= j < |log| && log[j] == x;
      OffsetOrder(log, file, q, j);
    }
  }

  lemma BatchNamed(w: World, b: Batch, named: set<(string, Buffered)>)
    requires SourceShape(w, b.source) && CoveredAt(w, b.source) && BatchShape(w, b) && StartsLow(w, b)
    requires w.acked <= named && Tagged(b) <= named
    ensures forall i :: 0 <= i < b.next ==> (b.source, Buf(w.log, b.source)[i]) in named
  {
    var log, first := Buf(w.log, b.source), b.next - |b.records|;
    forall i | 0 <= i < b.next ensures (b.source, log[i]) in named {
      if i >= first {
        assert b.records[i - first] == log[i];
        assert (b.source, log[i]) in Tagged(b);
      }
    }
  }

  /** What one acknowledgement saves is behind the records it names and those acked before. */
  lemma SavedIsBehind(w: World, b: Batch, w': World, c: SaveCall, q: nat)
    requires SourceShape(w, b.source) && CoveredAt(w, b.source) && BatchShape(w, b) && StartsLow(w, b)
    requires w'.log == w.log && w.acked <= w'.named && Tagged(b) <= w'.named
    requires c.source == b.source && q < |b.records| && Anchor(b.records[q], c)
    requires IncreasingOffsets(Buf(w.log, c.source), c.filePath)
    ensures Anchored(w', c) && Behind(w', c)
  {
    var log, first := Buf(w.log, b.source), b.next - |b.records|;
    BatchNamed(w, b, w'.named);
    assert log[first + q] == b.records[q];
    assert Anchor(Buf(w'.log, c.source)[first + q], c);
    NamedUpTo(b.source, log, first, b.next, first + q, c.filePath, w'.named);
  }

  lemma SavedComesFrom(st: State, id: string, b: Batch, saver: bool, fails: SaveCall -> bool,
                       st': State, calls: seq<SaveCall>, out: AckOutcome, c: SaveCall) returns (q: nat)
    requires SaveAndCommit(st, id, b, saver, fails, st', calls, out) && c in calls
    ensures c.source == b.source && q < |b.records| && Anchor(b.records[q], c)
  {
    var latest: map<string, int> :| IsLatest(b.records, latest)
      && SavedWith(latest, st, id, b, saver, fails, st', calls, out);
    var i :| 0 <= i < |calls| && calls[i] == c;
    q := LatestComesFrom(b, latest, c.filePath);
  }

  lemma AckSavesBehind(w: World, req: AckRequest, saver: bool, fails: SaveCall -> bool,
                       calls: seq<SaveCall>, out: AckOutcome, w': World, c: SaveCall)
    requires Shape(w) && Covered(w) && AckNext(w, req, saver, fails, calls, out, w')
    requires Addressed(w.svc, req).Ok? && !req.nack && c in calls
    requires IncreasingOffsets(Buf(w.log, c.source), c.filePath)
    ensures Anchored(w', c) && Behind(w', c)
  {
    var b := Addressed(w.svc, req).value;
    assert BatchShape(w, b) && StartsLow(w, b) && SourceShape(w, b.source) && CoveredAt(w, b.source);
    var q := SavedComesFrom(w.svc, req.batchId, b, saver, fails, w'.svc, calls, out, c);
    SavedIsBehind(w, b, w', c, q);
  }

  lemma NamedGrows(w: World, e: Event, w': World)
    requires Next(w, e, w')
    ensures w.named <= w'.named
  {
    if e.Ack? {
      var fails, calls, out :| AckNext(w, e.ack, e.saver, fails, calls, out, w');
    }
  }

  lemma StepKeepsBehind(w: World, e: Event, w': World, c: SaveCall)
    requires Shape(w) && Covered(w) && Next(w, e, w') && c in w'.saves
    requires c in w.saves ==> Anchored(w, c) && Behind(w, c)
    requires IncreasingOffsets(Buf(w'.log, c.source), c.filePath)
    ensures Anchored(w', c) && Behind(w', c)
  {
    StepKeepsShape(w, e, w');
    if c in w.saves {
      NamedGrows(w, e, w');
      AnchoredStaysBehind(w, w', c);
    } else if e.Ack? {
      var fails, calls, out :| AckNext(w, e.ack, e.saver, fails, calls, out, w');
      AckSavesBehind(w, e.ack, e.saver, fails, calls, out, w', c);
    }
  }

  ghost predicate LogsGrow(w: World, w': World) {
    forall k :: Buf(w.log, k) <= Buf(w'.log, k)
  }

  lemma LogsArePrefixes(maxBuffered: int, ws: seq<World>, es: seq<Event>)
    requires FrontRun(maxBuffered, ws, es)
    ensures forall i, j :: 0 <= i <= j < |ws| ==> LogsGrow(ws[i], ws[j])
  {
    RunSound(maxBuffered, ws, es);
    forall i | 0 <= i < |es| ensures LogsGrow(ws[i], ws[i + 1]) {
      assert FrontNext(ws[i], es[i], ws[i + 1]) && Sound(ws[i]);
      StepKeepsShape(ws[i], es[i], ws[i + 1]);
    }
    Monotone(FrontNext, ws, es, LogsGrow);
  }

  ghost predicate SavedBehind(w: World, c: SaveCall) {
    Sound(w) && (c in w.saves ==> Anchored(w, c) && Behind(w, c))
  }

  /** With empty-cursor pulls and the file's records buffered in strictly increasing offset
      order, whenever an offset was handed to the saver for a file, accepted or not, every
      buffered record of that file up to it was in a batch named by a non-nack Ack. */
  lemma CheckpointsNeverRunAhead(maxBuffered: int, ws: seq<World>, es: seq<Event>, c: SaveCall)
    requires FrontRun(maxBuffered, ws, es)
    requires c in ws[|es|].saves
    requires IncreasingOffsets(Buf(ws[|es|].log, c.source), c.filePath)
    ensures Behind(ws[|es|], c)
  {
    LogsArePrefixes(maxBuffered, ws, es);
    var next := (w, e, w') => FrontNext(w, e, w') && IncreasingOffsets(Buf(w'.log, c.source), c.filePath);
    forall i | 0 <= i < |es| ensures next(ws[i], es[i], ws[i + 1]) {
      assert FrontNext(ws[i], es[i], ws[i + 1]) && LogsGrow(ws[i + 1], ws[|es|]);
      assert Buf(ws[i + 1].log, c.source) <= Buf(ws[|es|].log, c.source);
    }
    forall w, e, w' | SavedBehind(w, c) && next(w, e, w') ensures SavedBehind(w', c) {
      StepKeepsSound(w, e, w');
      if c in w'.saves {
        StepKeepsBehind(w, e, w', c);
      }
    }
    InitShape(maxBuffered);
    Invariant(next, ws, es, w => SavedBehind(w, c));
    assert SavedBehind(ws[|es|], c);
  }

  lemma FailureShows(latest: map<string, int>, st: State, id: string, b: Batch, fails: SaveCall -> bool,
                     st': State, calls: seq<SaveCall>, out: AckOutcome)
    requires SavedWith(latest, st, id, b, true, fails, st', calls, out)
    ensures out.SaveFailed? ==> st' == st
    ensures out.SaveFailed? <==> exists c :: c in calls && fails(c)
  {
    if out.SaveFailed? {
      assert calls[|calls| - 1] in calls;
    }
  }

  lemma CallFor(b: Batch, latest: map<string, int>, fails: SaveCall -> bool, calls: seq<SaveCall>, x: Buffered)
    returns (c: SaveCall)
    requires IsLatest(b.records, latest) && IsSaving(b.source, latest, fails, calls)
    requires latest.Keys == Files(calls)
    requires x in b.records && HasOffset(x)
    ensures c in calls && c.filePath == x.record.filePath && c.offset >= x.record.offset
  {
    assert x.record.filePath in latest.Keys;
    c :| c in calls && c.filePath == x.record.filePath;
    var i :| 0 <= i < |calls| && calls[i] == c;
  }

  lemma EveryFileSaved(b: Batch, latest: map<string, int>, fails: SaveCall -> bool, calls: seq<SaveCall>)
    requires IsLatest(b.records, latest) && IsSaving(b.source, latest, fails, calls)
    requires latest.Keys == Files(calls)
    ensures forall x :: x in b.records && HasOffset(x) ==>
      exists c :: c in calls && c.filePath == x.record.filePath && c.offset >= x.record.offset
  {
    forall x | x in b.records && HasOffset(x)
      ensures exists c :: c in calls && c.filePath == x.record.filePath && c.offset >= x.record.offset
    {
      var c := CallFor(b, latest, fails, calls, x);
    }
  }

  lemma SavedEverything(st: State, id: string, b: Batch, fails: SaveCall -> bool,
                        st': State, calls: seq<SaveCall>, out: AckOutcome)
    requires SaveAndCommit(st, id, b, true, fails, st', calls, out)
    ensures out.SaveFailed? ==> st' == st
    ensures out.SaveFailed? <==> exists c :: c in calls && fails(c)
    ensures out.Accepted? ==>
      forall x :: x in b.records && HasOffset(x) ==>
        exists c :: c in calls && c.filePath == x.record.filePath && c.offset >= x.record.offset
  {
    var latest: map<string, int> :| IsLatest(b.records, latest)
      && SavedWith(latest, st, id, b, true, fails, st', calls, out);
    FailureShows(latest, st, id, b, fails, st', calls, out);
    if out.Accepted? {
      EveryFileSaved(b, latest, fails, calls);
    }
  }

  /** A failed save leaves the service as it was, so the same acknowledgement can be retried;
      an accepted one has saved, for every file of the batch, an offset no record of the batch
      exceeds, and no save failed. */
  lemma FailedSaveChangesNothing(st: State, req: AckRequest, fails: SaveCall -> bool,
                                 st': State, calls: seq<SaveCall>, out: AckOutcome)
    requires AckStep(st, req, true, fails, st', calls, out)
    ensures out.SaveFailed? ==> st' == st && Addressed(st', req) == Addressed(st, req)
    ensures out.SaveFailed? <==> exists c :: c in calls && fails(c)
    ensures out.Accepted? && !req.nack ==>
      forall x :: x in Addressed(st, req).value.records && HasOffset(x) ==>
        exists c :: c in calls && c.filePath == x.record.filePath && c.offset >= x.record.offset
  {
    if Addressed(st, req).Ok? && !req.nack {
      var b := Addressed(st, req).value;
      SavedEverything(st, req.batchId, b, fails, st', calls, out);
    }
  }
}
