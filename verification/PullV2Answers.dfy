/** What a pull of the second version answers, said of the buffered records themselves; and that a
    client acknowledges nothing it was not sent. */
module PullV2Answers {
  import opened Prelude
  import opened PullV2
  import opened PullV2Runs

  /** Numbers increase along the buffer. */
  predicate Rising(buf: seq<Buffered>) {
    forall i, j :: 0 <= i < j < |buf| ==> buf[i].seqNo < buf[j].seqNo
  }

  lemma ShapeRises(w: World, k: string)
    requires Shape(w)
    ensures Rising(Buf(w.svc.records, k))
  {
    assert SourceShape(w, k);
  }

  /** `p` is where the records after the cursor start. */
  predicate Splits(buf: seq<Buffered>, cursor: int, p: nat) {
    && p <= |buf|
    && (forall i :: 0 <= i < p ==> buf[i].seqNo <= cursor)
    && (forall i :: p <= i < |buf| ==> buf[i].seqNo > cursor)
  }

  lemma {:induction false} AllAfter(buf: seq<Buffered>, cursor: int)
    requires forall i :: 0 <= i < |buf| ==> buf[i].seqNo > cursor
    ensures After(buf, cursor) == buf
  {
    if |buf| > 0 {
      AllAfter(buf[1..], cursor);
    }
  }

  lemma {:induction false} SplitsAt(buf: seq<Buffered>, cursor: int) returns (p: nat)
    requires Rising(buf)
    ensures Splits(buf, cursor, p) && After(buf, cursor) == buf[p..]
  {
    if |buf| == 0 {
      p := 0;
    } else if buf[0].seqNo > cursor {
      p := 0;
      AllAfter(buf, cursor);
    } else {
      var q := SplitsAt(buf[1..], cursor);
      p := q + 1;
      assert buf[1..][q..] == buf[p..];
      assert forall i :: 1 <= i < |buf| ==> buf[i] == buf[1..][i - 1];
    }
  }

  lemma SplitsThere(buf: seq<Buffered>, q: nat, rest: seq<Buffered>)
    requires Rising(buf) && 0 < q <= |buf| && rest == After(buf, buf[q - 1].seqNo)
    ensures |rest| == |buf| - q
  {
    var at := SplitsAt(buf, buf[q - 1].seqNo);
    assert buf[q - 1].seqNo <= buf[q - 1].seqNo;
  }

  /** Where a pull starts, and how many records it may send. */
  function StartOf(st: State, key: string, cursor: Cursor): nat {
    if cursor.At? then cursor.n else Num(st.committed, key)
  }

  function LimitOf(maxRecords: int): nat {
    if maxRecords > 0 then maxRecords else 200
  }

  /** The records from `p` on, up to `n` of them, each sent as it is. */
  predicate Sends(buf: seq<Buffered>, p: nat, n: nat, sent: seq<Record>) {
    p + n <= |buf| && |sent| == n && forall i :: 0 <= i < n ==> sent[i] == buf[p + i].record
  }

  /** The answer and the pending batch when `n` records are sent. */
  ghost predicate AnswersWith(st: State, key: string, cursor: Cursor, id: string, p: nat, n: nat, st': State,
                              out: PullOutcome)
  {
    var buf := Buf(st.records, key);
    && out.Page? && out.source == key && out.prev == StartOf(st, key, cursor)
    && Sends(buf, p, n, out.records)
    && (out.hasMore <==> p + n < |buf|)
    && if n == 0 then st' == st && out.batchId == None && out.next == out.prev
       else
         && out.batchId == Some(id) && out.next == buf[p + n - 1].seqNo
         && st' == st.(pending := st.pending[id := Batch(key, out.next, buf[p..p + n])])
  }

  lemma TakenIs(buf: seq<Buffered>, p: nat, max: nat, n: nat)
    requires p <= |buf| && n == Min(max, |buf| - p)
    ensures Take(buf[p..], max) == buf[p..p + n]
  {
  }

  lemma NothingAfter(st: State, key: string, start: nat, max: nat, id: string)
    requires max > 0 && |After(Buf(st.records, key), start)| == 0
    ensures PullFrom(st, key, start, max, id) == (st, Page(None, key, start, start, false, []))
  {
  }

  lemma SomeAfter(st: State, key: string, start: nat, max: nat, id: string, p: nat, n: nat)
    requires var buf := Buf(st.records, key);
      Rising(buf) && p < |buf| && After(buf, start) == buf[p..] && 0 < n == Min(max, |buf| - p)
    ensures var buf := Buf(st.records, key); var next := buf[p + n - 1].seqNo;
      var (st', out) := PullFrom(st, key, start, max, id);
      && st' == st.(pending := st.pending[id := Batch(key, next, buf[p..p + n])])
      && out.Page? && out == Page(Some(id), key, start, next, p + n < |buf|, out.records)
      && Sends(buf, p, n, out.records)
  {
    var buf := Buf(st.records, key);
    TakenIs(buf, p, max, n);
    SplitsThere(buf, p + n, After(buf, buf[p + n - 1].seqNo));
  }

  /** Every pull whose cursor can be read sends the first records after its cursor, up to the limit,
      each once and in order; these are what is pending, and its cursors are where it started
      and the number of the last one. */
  lemma PullIsExact(st: State, key: string, cursor: Cursor, maxRecords: int, id: string) returns (p: nat)
    requires key != "" && !cursor.Unreadable? && Rising(Buf(st.records, key))
    ensures var buf := Buf(st.records, key);
      && Splits(buf, StartOf(st, key, cursor), p)
      && var (st', out) := PullStep(st, key, cursor, maxRecords, id);
         AnswersWith(st, key, cursor, id, p, Min(LimitOf(maxRecords), |buf| - p), st', out)
  {
    var buf, start, max := Buf(st.records, key), StartOf(st, key, cursor), LimitOf(maxRecords);
    p := SplitsAt(buf, start);
    assert PullStep(st, key, cursor, maxRecords, id) == PullFrom(st, key, start, max, id);
    if p < |buf| {
      SomeAfter(st, key, start, max, id, p, Min(max, |buf| - p));
    } else {
      NothingAfter(st, key, start, max, id);
    }
  }

  lemma FrontStart(w: World, key: string, p: nat)
    requires Shape(w) && Splits(Buf(w.svc.records, key), Num(w.svc.committed, key), p)
    ensures p == 0
  {
    assert SourceShape(w, key);
    var buf := Buf(w.svc.records, key);
    assert forall i :: 0 <= i < |buf| ==> buf[i] == Buf(w.log, key)[Num(w.high, key) + i];
    assert |buf| > 0 ==> buf[0].seqNo > Num(w.svc.committed, key);
  }

  /** Until it is acknowledged, the oldest part of the buffer is what every empty-cursor pull
      returns again, and has_more tells whether anything is left behind it. */
  lemma EmptyCursorRedelivers(w: World, key: string, maxRecords: int, id: string)
    requires Shape(w) && key != ""
    ensures var buf := Buf(w.svc.records, key);
      var n := Min(if maxRecords > 0 then maxRecords else 200, |buf|);
      var out := PullStep(w.svc, key, Cursor.Committed, maxRecords, id).1;
      && out.Page? && |out.records| == n && (forall i :: 0 <= i < n ==> out.records[i] == buf[i].record)
      && (out.hasMore <==> n < |buf|) && (out.batchId.Some? <==> n > 0)
  {
    ShapeRises(w, key);
    var p := PullIsExact(w.svc, key, Cursor.Committed, maxRecords, id);
    FrontStart(w, key, p);
  }

  // ---- What a client acknowledges it was sent ----

  /** What pull `e` is answered with in the world it finds. */
  function AnswerOf(w: World, e: Event): PullOutcome
    requires e.Pull?
  {
    PullStep(w.svc, e.key, e.cursor, e.maxRecords, e.batchId).1
  }

  /** The answer named the batch and held its records, one for one. */
  ghost predicate Answered(w: World, e: Event, id: string, b: Batch) {
    && e.Pull? && e.batchId == id
    && var out := AnswerOf(w, e);
       && out.Page? && out.batchId == Some(id) && out.source == b.source && out.next == b.next
       && |out.records| == |b.records| && forall i :: 0 <= i < |b.records| ==> out.records[i] == b.records[i].record
  }

  /** Every pending batch was in some answer before. */
  ghost predicate AllAnswered(ws: seq<World>, es: seq<Event>, j: nat)
    requires j <= |es| && |ws| == |es| + 1
  {
    forall id :: id in ws[j].svc.pending ==>
      exists i :: 0 <= i < j && Answered(ws[i], es[i], id, ws[j].svc.pending[id])
  }

  /** The pending batch of a pull is its answer. */
  lemma PullAnswers(w: World, e: Event, w': World, id: string)
    requires Shape(w) && e.Pull? && Next(w, e, w') && id in w'.svc.pending
    ensures (id in w.svc.pending && w'.svc.pending[id] == w.svc.pending[id]) || Answered(w, e, id, w'.svc.pending[id])
  {
    if e.key != "" && !e.cursor.Unreadable? {
      ShapeRises(w, e.key);
      var p := PullIsExact(w.svc, e.key, e.cursor, e.maxRecords, e.batchId);
    }
  }

  lemma StepAnswers(w: World, e: Event, w': World, id: string)
    requires Shape(w) && Next(w, e, w') && id in w'.svc.pending
    ensures (id in w.svc.pending && w'.svc.pending[id] == w.svc.pending[id]) || Answered(w, e, id, w'.svc.pending[id])
  {
    match e
    case Append(key, items, now) => AppendEffect(w, key, items, now, w');
    case Pull(_, _, _, _) => PullAnswers(w, e, w', id);
    case Ack(req, saver) => AckEffect(w, req, saver, w');
  }

  lemma AnsweredOn(ws: seq<World>, es: seq<Event>, j: nat)
    requires 0 < j <= |es| && |ws| == |es| + 1 && AllAnswered(ws, es, j - 1)
    requires Shape(ws[j - 1]) && Next(ws[j - 1], es[j - 1], ws[j])
    ensures AllAnswered(ws, es, j)
  {
    forall id | id in ws[j].svc.pending
      ensures exists i :: 0 <= i < j && Answered(ws[i], es[i], id, ws[j].svc.pending[id])
    {
      StepAnswers(ws[j - 1], es[j - 1], ws[j], id);
    }
  }

  lemma NoneAtFirst(maxBuffered: int, ws: seq<World>, es: seq<Event>)
    requires |ws| == |es| + 1 && ws[0] == InitWorld(maxBuffered)
    ensures AllAnswered(ws, es, 0)
  {
  }

  lemma StepOf(maxBuffered: int, ws: seq<World>, es: seq<Event>, j: nat)
    requires Run(maxBuffered, ws, es) && 0 < j <= |es|
    ensures Shape(ws[j - 1]) && Next(ws[j - 1], es[j - 1], ws[j])
  {
    RunShape(maxBuffered, ws, es);
  }

  lemma {:induction false} PendingWasAnswered(maxBuffered: int, ws: seq<World>, es: seq<Event>, j: nat)
    requires Run(maxBuffered, ws, es) && j <= |es|
    ensures AllAnswered(ws, es, j)
  {
    if j == 0 {
      NoneAtFirst(maxBuffered, ws, es);
    } else {
      PendingWasAnswered(maxBuffered, ws, es, j - 1);
      StepOf(maxBuffered, ws, es, j);
      AnsweredOn(ws, es, j);
    }
  }

  /** The answer to this pull held the record, at the place that its number says. */
  ghost predicate Told(w: World, e: Event, key: string, x: Buffered) {
    && e.Pull?
    && var out := AnswerOf(w, e);
       && out.Page? && out.source == key
       && var m := x.seqNo - (out.next - |out.records|) - 1;
          0 <= m < |out.records| && out.records[m] == x.record
  }

  lemma AnsweredTells(w: World, e: Event, id: string, after: World, b: Batch, x: Buffered)
    requires Answered(w, e, id, b) && Shape(after) && BatchShape(after, b) && x in b.records
    ensures Told(w, e, b.source, x)
  {
    var i :| 0 <= i < |b.records| && b.records[i] == x;
    BatchNumbers(after, b, i);
  }

  ghost predicate AllTold(ws: seq<World>, es: seq<Event>, j: nat)
    requires j <= |es| && |ws| == |es| + 1
  {
    forall k, x {:trigger (k, x) in ws[j].acked} :: (k, x) in ws[j].acked ==>
      exists i :: 0 <= i < j && Told(ws[i], es[i], k, x)
  }

  lemma AckedNow(w: World, e: Event, w': World, k: string, x: Buffered) returns (b: Batch)
    requires Shape(w) && Next(w, e, w') && (k, x) in w'.acked && (k, x) !in w.acked
    ensures e.Ack? && e.ack.batchId in w.svc.pending && b == w.svc.pending[e.ack.batchId]
    ensures k == b.source && x in b.records && BatchShape(w, b)
  {
    AckEffect(w, e.ack, e.saver, w');
    b := w.svc.pending[e.ack.batchId];
  }

  lemma ToldOn(ws: seq<World>, es: seq<Event>, j: nat)
    requires 0 < j <= |es| && |ws| == |es| + 1 && AllAnswered(ws, es, j - 1) && AllTold(ws, es, j - 1)
    requires Shape(ws[j - 1]) && Next(ws[j - 1], es[j - 1], ws[j])
    ensures AllTold(ws, es, j)
  {
    var w, e, w' := ws[j - 1], es[j - 1], ws[j];
    forall k, x | (k, x) in w'.acked ensures exists i :: 0 <= i < j && Told(ws[i], es[i], k, x) {
      if (k, x) in w.acked {
        assert exists i :: 0 <= i < j - 1 && Told(ws[i], es[i], k, x);
      } else {
        var b := AckedNow(w, e, w', k, x);
        var i :| 0 <= i < j - 1 && Answered(ws[i], es[i], e.ack.batchId, b);
        AnsweredTells(ws[i], es[i], e.ack.batchId, w, b, x);
      }
    }
  }

  /** In every run, with any cursors, whatever was acknowledged was in an answer before, under its
      own source and number. */
  lemma {:induction false} AckedWasSent(maxBuffered: int, ws: seq<World>, es: seq<Event>, j: nat)
    requires Run(maxBuffered, ws, es) && j <= |es|
    ensures AllTold(ws, es, j)
  {
    if j == 0 {
      assert ws[0].acked == {};
    } else {
      AckedWasSent(maxBuffered, ws, es, j - 1);
      PendingWasAnswered(maxBuffered, ws, es, j - 1);
      StepOf(maxBuffered, ws, es, j);
      ToldOn(ws, es, j);
    }
  }
}
