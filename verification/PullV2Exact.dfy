/** What the other operations of the second pull version do, said of requests, records and numbers
    themselves. */
module PullV2Exact {
  import opened Text
  import opened Numerals
  import opened PullV2
  import opened PullV2Runs
  import opened PullV2Answers

  // ---- Appending ----

  /** The identifier a record without one gets: its source with slashes and spaces replaced, and
      its number. */
  predicate DefaultId(key: string, n: nat, id: string) {
    && |id| > |key| && id[|key|..] == "-" + FormatNat(n)
    && forall i :: 0 <= i < |key| ==> id[i] == if key[i] == '/' || key[i] == ' ' then '-' else key[i]
  }

  lemma FormatIsOne(a: nat, b: nat)
    requires FormatNat(a) == FormatNat(b)
    ensures a == b
  {
    DigitsOfFormat(a);
    DigitsOfFormat(b);
  }

  /** No two records of a source get the same one. */
  lemma DefaultIdsDiffer(key: string, a: nat, b: nat, id: string)
    requires DefaultId(key, a, id) && DefaultId(key, b, id)
    ensures a == b
  {
    assert id[|key|..][1..] == FormatNat(a) == FormatNat(b);
    FormatIsOne(a, b);
  }

  /** `x` is the record `item` numbered `n`, which keeps everything it came with. */
  predicate IsBuffered(key: string, n: nat, now: int, item: Record, x: Buffered) {
    && x.seqNo == n
    && x.record.filePath == item.filePath && x.record.body == item.body && x.record.offset == item.offset
    && x.record.attributes == item.attributes
    && x.record.observedAt == (if item.observedAt != 0 then item.observedAt else now)
    && if Blank(Go, item.recordId) then DefaultId(key, n, x.record.recordId) else x.record.recordId == item.recordId
  }

  lemma SanitizedIs(key: string, s: string)
    requires key != "" && Trim(Go, key) == key && s == Sanitize(key)
    ensures |s| == |key|
    ensures forall i :: 0 <= i < |key| ==> s[i] == if key[i] == '/' || key[i] == ' ' then '-' else key[i]
  {
  }

  lemma Suffixed(s: string, tail: string, id: string)
    requires id == s + tail
    ensures id[|s|..] == tail && forall i :: 0 <= i < |s| ==> id[i] == s[i]
  {
  }

  lemma DefaultIs(key: string, n: nat)
    requires key != "" && Trim(Go, key) == key
    ensures DefaultId(key, n, Sanitize(key) + "-" + FormatNat(n))
  {
    var s, tail := Sanitize(key), "-" + FormatNat(n);
    SanitizedIs(key, s);
    assert s + "-" + FormatNat(n) == s + tail;
    Suffixed(s, tail, s + tail);
  }

  lemma NumberedIs(key: string, last: nat, now: int, items: seq<Record>, i: nat)
    requires key != "" && Trim(Go, key) == key && i < |items|
    ensures IsBuffered(key, last + 1 + i, now, items[i], Numbered(key, last, now, items)[i])
  {
    DefaultIs(key, last + 1 + i);
  }

  /** Nothing of another source, and nothing but the numbers and the buffer of this one. */
  ghost predicate OnlyAppends(st: State, key: string, st': State) {
    && st'.committed == st.committed && st'.pending == st.pending && st'.maxBuffered == st.maxBuffered
    && forall k :: k != key ==>
         Num(st'.nextSeq, k) == Num(st.nextSeq, k) && Buf(st'.records, k) == Buf(st.records, k)
  }

  lemma OnlyThere(st: State, key: string, items: seq<Record>, now: int)
    ensures var st' := Extended(st, key, items, now); var last := Num(st.nextSeq, key);
      && OnlyAppends(st, key, st') && Num(st'.nextSeq, key) == last + |items|
      && Buf(st'.records, key) == Buf(st.records, key) + Numbered(key, last, now, items)
  {
  }

  /** The new part of a buffer. */
  predicate Behind(key: string, last: nat, now: int, items: seq<Record>, buf: seq<Buffered>, buf': seq<Buffered>) {
    && |buf'| == |buf| + |items| && buf <= buf'
    && forall i :: 0 <= i < |items| ==> IsBuffered(key, last + 1 + i, now, items[i], buf'[|buf| + i])
  }

  lemma NumberedBehind(key: string, last: nat, now: int, items: seq<Record>, buf: seq<Buffered>)
    requires key != "" && Trim(Go, key) == key
    ensures Behind(key, last, now, items, buf, buf + Numbered(key, last, now, items))
  {
    var more := Numbered(key, last, now, items);
    forall i | 0 <= i < |items| ensures IsBuffered(key, last + 1 + i, now, items[i], (buf + more)[|buf| + i]) {
      NumberedIs(key, last, now, items, i);
      assert (buf + more)[|buf| + i] == more[i];
    }
  }

  /** Records are refused together exactly when there is no room for all of them; otherwise all of
      them go behind what is buffered, numbered on from the source's last number. */
  lemma AppendIsExact(st: State, key: string, items: seq<Record>, now: int)
    requires key != "" && Trim(Go, key) == key
    ensures var (st', out) := AppendStep(st, key, items, now);
      var buf, buf', last := Buf(st.records, key), Buf(st'.records, key), Num(st.nextSeq, key);
      && (out == BufferFull <==> |items| > 0 && |buf| + |items| > st.maxBuffered)
      && (out == BufferFull || |items| == 0 ==> st' == st)
      && (out != BufferFull ==>
            && out == Appended && OnlyAppends(st, key, st') && Num(st'.nextSeq, key) == last + |items|
            && Behind(key, last, now, items, buf, buf'))
  {
    OnlyThere(st, key, items, now);
    NumberedBehind(key, Num(st.nextSeq, key), now, items, Buf(st.records, key));
  }

  // ---- Cursors ----

  /** A cursor that is not empty is read as zero when it is blank, and as `n` exactly when its
      trimmed text is that number, with perhaps a sign and leading zeros, and fits 64 bits. */
  lemma CursorIsRead(raw: string, n: nat)
    ensures ReadCursor(raw).Committed? <==> raw == ""
    ensures raw != "" ==>
      (ReadCursor(raw) == At(n) <==>
        if Blank(Go, raw) then n == 0 else n <= MAX_INT64 && Numeral(Trim(Go, raw), n))
  {
    ParsesIff(Trim(Go, raw), n);
  }

  // ---- Acknowledging ----

  /** The request names a pending batch, and its cursor is that batch's if it has one. */
  predicate Agrees(st: State, req: AckRequest) {
    && req.batchId != "" && req.batchId in st.pending
    && (req.claim == "" || req.claim == FormatNat(st.pending[req.batchId].next))
  }

  /** The batch is gone and nothing else has changed. */
  ghost predicate OnlyDrops(st: State, id: string, st': State) {
    && st' == st.(pending := st'.pending)
    && (forall i :: i in st'.pending <==> i in st.pending && i != id)
    && (forall i :: i in st'.pending ==> st'.pending[i] == st.pending[i])
  }

  /** The batch is gone, its source is committed up to its cursor, and what is left of the source's
      buffer are the records behind that. */
  ghost predicate OnlyCommits(st: State, id: string, b: Batch, st': State) {
    && st'.nextSeq == st.nextSeq && st'.maxBuffered == st.maxBuffered
    && (forall i :: i in st'.pending <==> i in st.pending && i != id)
    && (forall i :: i in st'.pending ==> st'.pending[i] == st.pending[i])
    && b.source in st'.committed && st'.committed[b.source] == b.next
    && (forall k :: k != b.source ==>
          Num(st'.committed, k) == Num(st.committed, k) && Buf(st'.records, k) == Buf(st.records, k))
    && exists p: nat :: Splits(Buf(st.records, b.source), b.next, p)
                        && Buf(st'.records, b.source) == Buf(st.records, b.source)[p..]
  }

  lemma CommitIs(st: State, id: string, b: Batch)
    requires Rising(Buf(st.records, b.source))
    ensures OnlyCommits(st, id, b, Commit(st, id, b))
  {
    var p := SplitsAt(Buf(st.records, b.source), b.next);
  }

  /** The record names a file and where it ends there. */
  predicate Places(x: Buffered) {
    !Blank(Go, x.record.filePath) && x.record.offset > 0
  }

  /** Each offset that is saved is one of the batch's, and if all are saved, none of the batch's is
      past that of its file. */
  ghost predicate SavesOf(b: Batch, calls: seq<SaveCall>, all: bool) {
    && (forall c :: c in calls ==>
          && c.source == b.source
          && exists x :: x in b.records && Places(x) && x.record.filePath == c.filePath && x.record.offset == c.offset)
    && (all ==> forall x :: x in b.records && Places(x) ==>
          exists c :: c in calls && c.filePath == x.record.filePath && c.offset >= x.record.offset)
  }

  /** The last call, for this file, is the only one that failed. */
  predicate FailsLast(fails: SaveCall -> bool, calls: seq<SaveCall>, file: string) {
    && |calls| > 0 && calls[|calls| - 1].filePath == file
    && forall i :: 0 <= i < |calls| ==> (fails(calls[i]) <==> i == |calls| - 1)
  }

  lemma SavingIs(latest: map<string, int>, fails: SaveCall -> bool, calls: seq<SaveCall>, b: Batch)
    requires IsLatest(b.records, latest) && IsSaving(b.source, latest, fails, calls)
    ensures SavesOf(b, calls, false)
  {
    forall c | c in calls ensures c.source == b.source &&
      exists x :: x in b.records && Places(x) && x.record.filePath == c.filePath && x.record.offset == c.offset
    {
      var i :| 0 <= i < |calls| && calls[i] == c;
      var x :| x in b.records && HasOffset(x) && x.record.filePath == c.filePath && x.record.offset == c.offset;
      assert Places(x);
    }
  }

  lemma AnyPlaced(b: Batch, latest: map<string, int>)
    requires IsLatest(b.records, latest)
    ensures latest != map[] <==> exists x :: x in b.records && Places(x)
  {
    if latest != map[] {
      var f :| f in latest;
      var x :| x in b.records && HasOffset(x) && x.record.filePath == f && x.record.offset == latest[f];
      assert Places(x);
    }
    if x :| x in b.records && Places(x) {
      assert HasOffset(x);
    }
  }

  lemma AllSaved(b: Batch, latest: map<string, int>, fails: SaveCall -> bool, calls: seq<SaveCall>)
    requires IsLatest(b.records, latest) && IsSaving(b.source, latest, fails, calls) && latest.Keys == Files(calls)
    ensures SavesOf(b, calls, true)
  {
    SavingIs(latest, fails, calls, b);
    EveryFileSaved(b, latest, fails, calls);
    forall x | x in b.records && Places(x)
      ensures exists c :: c in calls && c.filePath == x.record.filePath && c.offset >= x.record.offset
    {
      assert HasOffset(x);
    }
  }

  lemma SaveFailedIs(latest: map<string, int>, st: State, id: string, b: Batch, saver: bool, fails: SaveCall -> bool,
                     st': State, calls: seq<SaveCall>, out: AckOutcome)
    requires IsLatest(b.records, latest) && SavedWith(latest, st, id, b, saver, fails, st', calls, out)
    requires out.SaveFailed?
    ensures st' == st && saver && SavesOf(b, calls, false) && FailsLast(fails, calls, out.filePath)
  {
    SavingIs(latest, fails, calls, b);
  }

  lemma CommittedIs(latest: map<string, int>, st: State, id: string, b: Batch, saver: bool, fails: SaveCall -> bool,
                    st': State, calls: seq<SaveCall>, out: AckOutcome)
    requires IsLatest(b.records, latest) && SavedWith(latest, st, id, b, saver, fails, st', calls, out)
    requires !out.SaveFailed? && Rising(Buf(st.records, b.source))
    ensures OnlyCommits(st, id, b, st') && (if saver then SavesOf(b, calls, true) else |calls| == 0)
    ensures out == Accepted(exists x :: x in b.records && Places(x), b.source, FormatNat(b.next))
  {
    AnyPlaced(b, latest);
    CommitIs(st, id, b);
    if saver {
      AllSaved(b, latest, fails, calls);
    }
  }

  /** What an acknowledgement answers and does: the wrong batch or cursor, a nack, a failed save, or
      a commit, which says whether the batch had an offset to save. */
  lemma AckIsExact(st: State, req: AckRequest, saver: bool, fails: SaveCall -> bool, st': State,
                   calls: seq<SaveCall>, out: AckOutcome)
    requires AckStep(st, req, saver, fails, st', calls, out)
    requires Agrees(st, req) ==> Rising(Buf(st.records, st.pending[req.batchId].source))
    ensures !Agrees(st, req) ==>
      st' == st && |calls| == 0
      && out == if req.batchId != "" && req.batchId in st.pending then CursorMismatch else BatchNotFound
    ensures Agrees(st, req) ==> var b := st.pending[req.batchId];
      && (req.nack ==>
            OnlyDrops(st, req.batchId, st') && |calls| == 0 && out == Accepted(false, b.source, FormatNat(b.next)))
      && (!req.nack && out.SaveFailed? ==>
            st' == st && saver && SavesOf(b, calls, false) && FailsLast(fails, calls, out.filePath))
      && (!req.nack && !out.SaveFailed? ==>
            && OnlyCommits(st, req.batchId, b, st')
            && (if saver then SavesOf(b, calls, true) else |calls| == 0)
            && out == Accepted(exists x :: x in b.records && Places(x), b.source, FormatNat(b.next)))
  {
    if Agrees(st, req) && !req.nack {
      var b := st.pending[req.batchId];
      var latest: map<string, int> :| IsLatest(b.records, latest)
        && SavedWith(latest, st, req.batchId, b, saver, fails, st', calls, out);
      if out.SaveFailed? {
        SaveFailedIs(latest, st, req.batchId, b, saver, fails, st', calls, out);
      } else {
        CommittedIs(latest, st, req.batchId, b, saver, fails, st', calls, out);
      }
    }
  }
}
