/** The pull delivery service, version 2: one sequence-numbered buffer per source, pulled in
    batches and pruned when a batch is acknowledged. This module gives the values and the
    effect of each operation; PullV2Service below carries the updating code. */
module PullV2 {
  import opened Prelude
  import opened Runs
  import opened Text

  datatype Record = Record(
    recordId: string, filePath: string, body: string, offset: int, observedAt: int,
    attributes: map<string, string>)

  datatype Buffered = Buffered(seqNo: nat, record: Record)

  datatype Batch = Batch(source: string, next: nat, records: seq<Buffered>)

  datatype State = State(
    maxBuffered: int,
    nextSeq: map<string, nat>,
    committed: map<string, nat>,
    records: map<string, seq<Buffered>>,
    pending: map<string, Batch>)

  /** A Go map read: a missing key reads as the zero value. */
  function Num(m: map<string, nat>, key: string): nat {
    if key in m then m[key] else 0
  }

  function Buf<T>(m: map<string, seq<T>>, key: string): seq<T> {
    if key in m then m[key] else []
  }

  const DEFAULT_BUFFERED := 10000
  const DEFAULT_PULL := 200

  function Init(maxBuffered: int): State {
    State(if maxBuffered <= 0 then DEFAULT_BUFFERED else maxBuffered, map[], map[], map[], map[])
  }

  // ---- Append ----

  datatype AppendOutcome = Appended | AppendSourceRequired | BufferFull

  function Sanitize(key: string): string {
    var k := Trim(Go, key);
    if k == [] then "source"
    else seq(|k|, i requires 0 <= i < |k| => if k[i] == '/' || k[i] == ' ' then '-' else k[i])
  }

  /** The defaults a record gets when it is buffered; 0 stands for the zero time. */
  function Normalize(source: string, seqNo: nat, now: int, r: Record): Record {
    r.(recordId := if Blank(Go, r.recordId) then Sanitize(source) + "-" + FormatNat(seqNo) else r.recordId,
       observedAt := if r.observedAt == 0 then now else r.observedAt)
  }

  /** The given records, numbered consecutively after `last`. */
  function Numbered(source: string, last: nat, now: int, items: seq<Record>): (r: seq<Buffered>)
    ensures |r| == |items| && forall i :: 0 <= i < |r| ==> r[i].seqNo == last + 1 + i
  {
    seq(|items|, i requires 0 <= i < |items| => Buffered(last + 1 + i, Normalize(source, last + 1 + i, now, items[i])))
  }

  function Extended(st: State, key: string, items: seq<Record>, now: int): State {
    var last := Num(st.nextSeq, key);
    st.(nextSeq := st.nextSeq[key := last + |items|],
        records := st.records[key := Buf(st.records, key) + Numbered(key, last, now, items)])
  }

  /** `key` is the trimmed source key. */
  function AppendStep(st: State, key: string, items: seq<Record>, now: int): (State, AppendOutcome)
  {
    if key == [] then (st, AppendSourceRequired)
    else if items == [] then (st, Appended)
    else if |Buf(st.records, key)| + |items| > st.maxBuffered then (st, BufferFull)
    else (Extended(st, key, items, now), Appended)
  }

  // ---- Pull ----

  /** A request cursor as read: an empty one means "from the committed position"; any other
      text must parse, and text that is blank but not empty reads as zero. */
  datatype Cursor = Committed | At(n: nat) | Unreadable

  function ReadCursor(raw: string): (c: Cursor) {
    if raw == "" then Committed
    else if Blank(Go, raw) then At(0)
    else
      var p := ParseInt64(Trim(Go, raw));
      if p.Some? && p.value >= 0 then At(p.value) else Unreadable
  }

  datatype PullOutcome =
    | PullSourceRequired
    | BadCursor
    | Page(batchId: Option<string>, source: string, prev: int, next: int, hasMore: bool, records: seq<Record>)

  /** The buffered records numbered after the cursor. */
  function After(buf: seq<Buffered>, cursor: int): (r: seq<Buffered>) {
    if buf == [] then []
    else (if buf[0].seqNo > cursor then [buf[0]] else []) + After(buf[1..], cursor)
  }

  function Take<T>(s: seq<T>, n: nat): (r: seq<T>) {
    if n < |s| then s[..n] else s
  }

  function Bodies(items: seq<Buffered>): (r: seq<Record>) {
    seq(|items|, i requires 0 <= i < |items| => items[i].record)
  }

  function PullFrom(st: State, key: string, start: nat, max: nat, batchId: string): (State, PullOutcome) {
    var rest := After(Buf(st.records, key), start);
    var selected := Take(rest, max);
    if selected == [] then (st, Page(None, key, start, start, false, []))
    else
      var next := selected[|selected| - 1].seqNo;
      (st.(pending := st.pending[batchId := Batch(key, next, selected)]),
       Page(Some(batchId), key, start, next, After(Buf(st.records, key), next) != [], Bodies(selected)))
  }

  function PullLimit(maxRecords: int): (n: nat)
    ensures n > 0
  {
    if maxRecords <= 0 then DEFAULT_PULL else maxRecords
  }

  /** `key` is the trimmed source key. */
  function PullStep(st: State, key: string, cursor: Cursor, maxRecords: int, batchId: string): (State, PullOutcome) {
    if key == [] then (st, PullSourceRequired)
    else match cursor
      case Unreadable => (st, BadCursor)
      case Committed => PullFrom(st, key, Num(st.committed, key), PullLimit(maxRecords), batchId)
      case At(n) => PullFrom(st, key, n, PullLimit(maxRecords), batchId)
  }

  // ---- Ack ----

  /** The batch id and the claimed cursor are trimmed. */
  datatype AckRequest = AckRequest(batchId: string, nack: bool, claim: string)

  datatype AckOutcome =
    | BatchNotFound
    | CursorMismatch
    | SaveFailed(filePath: string)
    | Accepted(checkpointUpdated: bool, source: string, cursor: string)

  /** One call of the checkpoint saver. */
  datatype SaveCall = SaveCall(source: string, filePath: string, offset: int)

  function Files(calls: seq<SaveCall>): (r: set<string>) {
    set c | c in calls :: c.filePath
  }

  /** The records an acknowledgement takes into its checkpoints. */
  predicate HasOffset(b: Buffered) {
    !Blank(Go, b.record.filePath) && b.record.offset > 0
  }

  /** `latest` gives each file of the batch its largest positive offset. */
  ghost predicate IsLatest(records: seq<Buffered>, latest: map<string, int>) {
    && (forall b :: b in records && HasOffset(b) ==>
          b.record.filePath in latest && b.record.offset <= latest[b.record.filePath])
    && (forall f :: f in latest ==>
          exists b :: b in records && HasOffset(b) && b.record.filePath == f && b.record.offset == latest[f])
  }

  /** The calls made to the saver, in some order of the files: each file at most once, with
      its latest offset, and none after a failure. */
  ghost predicate IsSaving(source: string, latest: map<string, int>, fails: SaveCall -> bool, calls: seq<SaveCall>) {
    && (forall i :: 0 <= i < |calls| ==>
          calls[i].source == source && calls[i].filePath in latest && calls[i].offset == latest[calls[i].filePath])
    && (forall i, j :: 0 <= i < j < |calls| ==> calls[i].filePath != calls[j].filePath)
    && (forall i :: 0 <= i < |calls| - 1 ==> !fails(calls[i]))
  }

  /** The batch an acknowledgement addresses, and whether its cursor agrees. */
  function Addressed(st: State, req: AckRequest): (r: Result<Batch, AckOutcome>)
  {
    if req.batchId == [] || req.batchId !in st.pending then Err(BatchNotFound)
    else if req.claim != [] && req.claim != FormatNat(st.pending[req.batchId].next) then Err(CursorMismatch)
    else Ok(st.pending[req.batchId])
  }

  /** The effect of a non-nack acknowledgement whose checkpoints were saved. */
  function Commit(st: State, id: string, b: Batch): State {
    st.(committed := st.committed[b.source := b.next],
        records := st.records[b.source := After(Buf(st.records, b.source), b.next)],
        pending := st.pending - {id})
  }

  ghost predicate SavedWith(latest: map<string, int>, st: State, id: string, b: Batch, saver: bool,
                            fails: SaveCall -> bool, st': State, calls: seq<SaveCall>, out: AckOutcome)
  {
    && (if saver then IsSaving(b.source, latest, fails, calls) else calls == [])
    && if calls != [] && fails(calls[|calls| - 1]) then
         && st' == st
         && out == SaveFailed(calls[|calls| - 1].filePath)
       else
         && (saver ==> latest.Keys == Files(calls))
         && st' == Commit(st, id, b)
         && out == Accepted(latest != map[], b.source, FormatNat(b.next))
  }

  /** The non-nack part of Ack: save the latest offset of each file, and only if every call
      succeeds, commit. The saver and the iteration order of the files are outside the
      service, so this is a relation. Without a saver no call is made. */
  ghost predicate SaveAndCommit(st: State, id: string, b: Batch, saver: bool, fails: SaveCall -> bool,
                                st': State, calls: seq<SaveCall>, out: AckOutcome)
  {
    exists latest: map<string, int> ::
      IsLatest(b.records, latest) && SavedWith(latest, st, id, b, saver, fails, st', calls, out)
  }

  ghost predicate AckStep(st: State, req: AckRequest, saver: bool, fails: SaveCall -> bool,
                          st': State, calls: seq<SaveCall>, out: AckOutcome)
  {
    match Addressed(st, req)
    case Err(e) => st' == st && calls == [] && out == e
    case Ok(b) =>
      if req.nack then
        && st' == st.(pending := st.pending - {req.batchId}) && calls == []
        && out == Accepted(false, b.source, FormatNat(b.next))
      else SaveAndCommit(st, req.batchId, b, saver, fails, st', calls, out)
  }

  // ---- Runs ----

  /** The service with its history: every record ever buffered per source, the highest
      acknowledged number per source, the records named by a non-nack acknowledgement, those
      among them whose acknowledgement was accepted, and every call made to the saver. */
  datatype World = World(
    svc: State,
    log: map<string, seq<Buffered>>,
    high: map<string, nat>,
    named: set<(string, Buffered)>,
    acked: set<(string, Buffered)>,
    saves: set<SaveCall>)

  datatype Event =
    | Append(key: string, items: seq<Record>, now: int)
    | Pull(key: string, cursor: Cursor, maxRecords: int, batchId: string)
    | Ack(ack: AckRequest, saver: bool)

  function Tagged(b: Batch): (r: set<(string, Buffered)>) {
    set x | x in b.records :: (b.source, x)
  }

  /** The history after the non-nack acknowledgement of `b`. */
  ghost predicate Recorded(w: World, b: Batch, calls: seq<SaveCall>, accepted: bool, w': World) {
    && w'.log == w.log
    && w'.named == w.named + Tagged(b)
    && w'.saves == w.saves + (set c | c in calls)
    && w'.acked == (if accepted then w.acked + Tagged(b) else w.acked)
    && w'.high == (if accepted then w.high[b.source := Max(Num(w.high, b.source), b.next)] else w.high)
  }

  ghost predicate AckNext(w: World, req: AckRequest, saver: bool, fails: SaveCall -> bool,
                          calls: seq<SaveCall>, out: AckOutcome, w': World)
  {
    && AckStep(w.svc, req, saver, fails, w'.svc, calls, out)
    && var target := Addressed(w.svc, req);
       if target.Ok? && !req.nack then Recorded(w, target.value, calls, out.Accepted?, w')
       else w' == w.(svc := w'.svc)
  }

  ghost predicate Next(w: World, e: Event, w': World)
  {
    match e
    case Append(key, items, now) =>
      var (svc, out) := AppendStep(w.svc, key, items, now);
      && w' == w.(svc := svc,
                  log := if out.Appended? && items != [] then
                           w.log[key := Buf(w.log, key) + Numbered(key, Num(w.svc.nextSeq, key), now, items)]
                         else w.log)
    case Pull(key, cursor, max, id) =>
      w' == w.(svc := PullStep(w.svc, key, cursor, max, id).0)
    case Ack(req, saver) =>
      exists fails, calls, out :: AckNext(w, req, saver, fails, calls, out, w')
  }

  ghost function InitWorld(maxBuffered: int): World {
    World(Init(maxBuffered), map[], map[], {}, {}, {})
  }

  /** A source's buffer is the part of its log after the highest acknowledged number, and
      every pending batch is a nonempty contiguous part of the log ending at its cursor.
      Holds for any cursors and any order of acknowledgements. */
  ghost predicate SourceOk(log: seq<Buffered>, high: nat, committed: nat, nextSeq: nat, buf: seq<Buffered>, max: int) {
    && nextSeq == |log|
    && (forall i :: 0 <= i < |log| ==> log[i].seqNo == i + 1)
    && committed <= high <= |log|
    && buf == log[high..]
    && |buf| <= max
  }

  ghost predicate SourceShape(w: World, k: string) {
    SourceOk(Buf(w.log, k), Num(w.high, k), Num(w.svc.committed, k), Num(w.svc.nextSeq, k),
             Buf(w.svc.records, k), w.svc.maxBuffered)
  }

  ghost predicate BatchShape(w: World, b: Batch) {
    var log := Buf(w.log, b.source);
    && b.records != []
    && 0 <= b.next - |b.records| && b.next <= |log|
    && b.records == log[b.next - |b.records|..b.next]
  }

  predicate Logged(w: World, k: string, x: Buffered) {
    1 <= x.seqNo <= |Buf(w.log, k)| && x == Buf(w.log, k)[x.seqNo - 1]
  }

  ghost predicate Shape(w: World) {
    && w.svc.maxBuffered > 0
    && (forall k :: SourceShape(w, k))
    && (forall id :: id in w.svc.pending ==> BatchShape(w, w.svc.pending[id]))
    && (forall k, x :: (k, x) in w.acked ==> 1 <= x.seqNo <= Num(w.high, k) && Logged(w, k, x))
    && w.acked <= w.named
  }

  ghost predicate Run(maxBuffered: int, ws: seq<World>, es: seq<Event>) {
    Steps(Next, ws, es) && ws[0] == InitWorld(maxBuffered)
  }

  // ---- Facts about After ----

  lemma {:induction false} AfterOfLog(log: seq<Buffered>, from: nat, cursor: int)
    requires forall i :: 0 <= i < |log| ==> log[i].seqNo == i + 1
    requires from <= |log|
    ensures After(log[from..], cursor) == log[Min(Max(from, cursor), |log|)..]
    decreases |log| - from
  {
    if from < |log| {
      AfterOfLog(log, from + 1, cursor);
      assert log[from..][1..] == log[from + 1..];
    }
  }

  /** What a pull selects from a well-shaped source is a contiguous part of its log. */
  lemma SelectedShape(w: World, k: string, start: int, max: int)
    requires Shape(w) && start >= 0 && max > 0
    ensures var log := Buf(w.log, k); var from := Max(Num(w.high, k), start);
      var sel := Take(After(Buf(w.svc.records, k), start), max);
      && (sel == [] <==> from >= |log|)
      && (sel != [] ==> from + |sel| <= |log| && sel == log[from..from + |sel|] && sel[|sel| - 1].seqNo == from + |sel|)
  {
    assert SourceShape(w, k);
    AfterOfLog(Buf(w.log, k), Num(w.high, k), start);
  }

  // ---- Shape is kept ----

  lemma InitShape(maxBuffered: int)
    ensures Shape(InitWorld(maxBuffered))
  {
    var w := InitWorld(maxBuffered);
    forall k ensures SourceShape(w, k) {}
  }

  lemma NumberedOk(log: seq<Buffered>, high: nat, committed: nat, buf: seq<Buffered>, max: int,
                   k: string, now: int, items: seq<Record>)
    requires SourceOk(log, high, committed, |log|, buf, max) && |buf| + |items| <= max
    ensures var more := Numbered(k, |log|, now, items);
      SourceOk(log + more, high, committed, |log| + |items|, buf + more, max)
  {
  }

  lemma ExtendedSource(w: World, key: string, items: seq<Record>, now: int, w': World, k: string)
    requires SourceShape(w, k) && w'.svc == Extended(w.svc, key, items, now) && w'.high == w.high
    requires w'.log == w.log[key := Buf(w.log, key) + Numbered(key, Num(w.svc.nextSeq, key), now, items)]
    requires |Buf(w.svc.records, key)| + |items| <= w.svc.maxBuffered
    ensures SourceShape(w', k) && Buf(w.log, k) <= Buf(w'.log, k)
  {
    if k == key {
      NumberedOk(Buf(w.log, k), Num(w.high, k), Num(w.svc.committed, k), Buf(w.svc.records, k),
                 w.svc.maxBuffered, k, now, items);
    }
  }

  lemma AppendEffect(w: World, key: string, items: seq<Record>, now: int, w': World)
    requires Next(w, Append(key, items, now), w')
    ensures w' == w ||
      (&& |Buf(w.svc.records, key)| + |items| <= w.svc.maxBuffered
       && w' == w.(svc := Extended(w.svc, key, items, now),
                  log := w.log[key := Buf(w.log, key) + Numbered(key, Num(w.svc.nextSeq, key), now, items)]))
  {
  }

  /** Batches and acknowledged records stay well placed while logs only grow. */
  lemma LogGrows(w: World, w': World)
    requires Shape(w) && forall k :: Buf(w.log, k) <= Buf(w'.log, k)
    ensures forall id :: id in w.svc.pending ==> BatchShape(w', w.svc.pending[id])
    ensures forall k, x :: (k, x) in w.acked ==> Logged(w', k, x)
  {
    forall id | id in w.svc.pending ensures BatchShape(w', w.svc.pending[id]) {
      assert BatchShape(w, w.svc.pending[id]);
    }
  }

  lemma AppendKeepsShape(w: World, key: string, items: seq<Record>, now: int, w': World)
    requires Shape(w) && Next(w, Append(key, items, now), w')
    ensures Shape(w')
    ensures forall k :: Buf(w.log, k) <= Buf(w'.log, k)
  {
    AppendEffect(w, key, items, now, w');
    forall k ensures SourceShape(w', k) && Buf(w.log, k) <= Buf(w'.log, k) {
      assert SourceShape(w, k);
      if w' != w {
        ExtendedSource(w, key, items, now, w', k);
      }
    }
    LogGrows(w, w');
  }

  /** A pull changes only the pending batches, by at most one well-shaped batch. */
  ghost predicate Pulled(w: World, id: string, svc: State) {
    || svc == w.svc
    || (id in svc.pending && svc == w.svc.(pending := w.svc.pending[id := svc.pending[id]])
        && BatchShape(w, svc.pending[id]))
  }

  lemma PulledBatch(w: World, k: string, start: nat, max: nat, id: string)
    requires Shape(w) && max > 0
    ensures Pulled(w, id, PullFrom(w.svc, k, start, max, id).0)
  {
    SelectedShape(w, k, start, max);
  }

  lemma PullEffect(w: World, key: string, cursor: Cursor, max: int, id: string)
    requires Shape(w)
    ensures Pulled(w, id, PullStep(w.svc, key, cursor, max, id).0)
  {
    if key != [] && !cursor.Unreadable? {
      PulledBatch(w, key, if cursor.At? then cursor.n else Num(w.svc.committed, key), PullLimit(max), id);
    }
  }

  lemma PulledKeepsShape(w: World, id: string, svc: State)
    requires Shape(w) && Pulled(w, id, svc)
    ensures Shape(w.(svc := svc))
  {
    var w' := w.(svc := svc);
    LogGrows(w, w');
    forall j ensures SourceShape(w', j) { assert SourceShape(w, j); }
    forall i | i in svc.pending ensures BatchShape(w', svc.pending[i]) {
      if i != id { assert BatchShape(w, w.svc.pending[i]); }
    }
  }

  lemma PullKeepsShape(w: World, key: string, cursor: Cursor, max: int, id: string, w': World)
    requires Shape(w) && Next(w, Pull(key, cursor, max, id), w')
    ensures Shape(w') && w'.log == w.log
  {
    PullEffect(w, key, cursor, max, id);
    PulledKeepsShape(w, id, w'.svc);
  }

  lemma CommitSource(w: World, id: string, b: Batch, w': World, k: string)
    requires SourceShape(w, k) && BatchShape(w, b)
    requires w'.svc == Commit(w.svc, id, b) && w'.log == w.log
    requires w'.high == w.high[b.source := Max(Num(w.high, b.source), b.next)]
    ensures SourceShape(w', k)
  {
    if k == b.source {
      AfterOfLog(Buf(w.log, k), Num(w.high, k), b.next);
    }
  }

  /** What an acknowledgement can do to a world: nothing to the buffers, or commit the
      pending batch `b` it addresses. */
  ghost predicate Commits(w: World, id: string, b: Batch, w': World) {
    && id in w.svc.pending && b == w.svc.pending[id]
    && w'.svc == Commit(w.svc, id, b)
    && w'.high == w.high[b.source := Max(Num(w.high, b.source), b.next)]
    && w'.acked == w.acked + Tagged(b)
  }

  ghost predicate NothingCommitted(w: World, w': World) {
    && w'.svc == w.svc.(pending := w'.svc.pending)
    && (forall id :: id in w'.svc.pending ==> id in w.svc.pending && w'.svc.pending[id] == w.svc.pending[id])
    && w'.high == w.high && w'.acked == w.acked
  }

  ghost predicate AckAccepted(w: World, req: AckRequest, w': World) {
    && Addressed(w.svc, req).Ok?
    && Commits(w, req.batchId, Addressed(w.svc, req).value, w')
  }

  lemma SaveAndCommitEffect(st: State, id: string, b: Batch, saver: bool, fails: SaveCall -> bool,
                            st': State, calls: seq<SaveCall>, out: AckOutcome)
    requires SaveAndCommit(st, id, b, saver, fails, st', calls, out)
    ensures st' == if out.Accepted? then Commit(st, id, b) else st
  {
  }

  lemma AcceptedEffect(w: World, req: AckRequest, saver: bool, fails: SaveCall -> bool,
                       calls: seq<SaveCall>, out: AckOutcome, w': World)
    requires AckNext(w, req, saver, fails, calls, out, w')
    requires Addressed(w.svc, req).Ok? && !req.nack
    ensures if out.Accepted? then AckAccepted(w, req, w') else w'.svc == w.svc && NothingCommitted(w, w')
  {
    SaveAndCommitEffect(w.svc, req.batchId, Addressed(w.svc, req).value, saver, fails, w'.svc, calls, out);
  }

  lemma RefusedEffect(w: World, req: AckRequest, saver: bool, fails: SaveCall -> bool,
                      calls: seq<SaveCall>, out: AckOutcome, w': World)
    requires AckNext(w, req, saver, fails, calls, out, w')
    requires Addressed(w.svc, req).Err? || req.nack
    ensures NothingCommitted(w, w') && w' == w.(svc := w'.svc)
  {
  }

  lemma AckEffect(w: World, req: AckRequest, saver: bool, w': World)
    requires Next(w, Ack(req, saver), w')
    ensures w'.log == w.log
    ensures NothingCommitted(w, w') || AckAccepted(w, req, w')
  {
    var fails, calls, out :| AckNext(w, req, saver, fails, calls, out, w');
    if Addressed(w.svc, req).Err? || req.nack {
      RefusedEffect(w, req, saver, fails, calls, out, w');
    } else {
      AcceptedEffect(w, req, saver, fails, calls, out, w');
    }
  }

  lemma TaggedLogged(w: World, b: Batch)
    requires Shape(w) && BatchShape(w, b)
    ensures forall k, x :: (k, x) in Tagged(b) ==> k == b.source && Logged(w, k, x) && x.seqNo <= b.next
  {
    assert SourceShape(w, b.source);
  }

  lemma CommitKeepsShape(w: World, id: string, b: Batch, w': World)
    requires Shape(w) && w'.log == w.log && Commits(w, id, b, w') && w'.acked <= w'.named
    ensures Shape(w')
  {
    assert BatchShape(w, b);
    LogGrows(w, w');
    TaggedLogged(w, b);
    forall k ensures SourceShape(w', k) {
      assert SourceShape(w, k);
      CommitSource(w, id, b, w', k);
    }
  }

  lemma NothingKeepsShape(w: World, w': World)
    requires Shape(w) && w'.log == w.log && NothingCommitted(w, w') && w'.acked <= w'.named
    ensures Shape(w')
  {
    LogGrows(w, w');
    forall k ensures SourceShape(w', k) {
      assert SourceShape(w, k);
    }
  }

  lemma AckKeepsShape(w: World, req: AckRequest, saver: bool, w': World)
    requires Shape(w) && Next(w, Ack(req, saver), w')
    ensures Shape(w') && w'.log == w.log
  {
    AckEffect(w, req, saver, w');
    if NothingCommitted(w, w') {
      NothingKeepsShape(w, w');
    } else {
      CommitKeepsShape(w, req.batchId, Addressed(w.svc, req).value, w');
    }
  }

  lemma StepKeepsShape(w: World, e: Event, w': World)
    requires Shape(w) && Next(w, e, w')
    ensures Shape(w')
    ensures forall k :: Buf(w.log, k) <= Buf(w'.log, k)
  {
    match e
    case Append(key, items, now) => AppendKeepsShape(w, key, items, now, w');
    case Pull(key, cursor, max, id) => PullKeepsShape(w, key, cursor, max, id, w');
    case Ack(req, saver) => AckKeepsShape(w, req, saver, w');
  }
}
