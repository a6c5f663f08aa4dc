/** The version 1 pull service as it runs: one buffer edited in place, an index kept beside it,
    loops over the buffer. Each method is proved against PullV1. */
module PullV1Service {
  import opened Text
  import opened Normalize
  import opened PullV1

  // ---- Facts the loops use ----

  lemma MatchingStep(glob: (string, string) -> bool, records: seq<Record>, path: string, i: nat)
    requires i < |records|
    ensures Matching(glob, records[..i + 1], path) ==
      Matching(glob, records[..i], path) + if Matches(glob, records[i].source, path) then [records[i]] else []
  {
    assert records[..i + 1][..i] == records[..i];
  }

  lemma AfterSnoc(records: seq<Record>, more: seq<Record>, cursor: int)
    requires |more| <= 1
    ensures After(records + more, cursor) ==
      After(records, cursor) + if more != [] && more[0].seqNo > cursor then more else []
  {
    if more == [] {
      assert records + more == records;
    } else {
      assert (records + more)[..|records|] == records;
    }
  }

  /** What the selection loop has gone through after `i` records. */
  ghost function Rest(glob: (string, string) -> bool, records: seq<Record>, path: string, start: int,
                      i: nat): seq<Record>
    requires i <= |records|
  {
    After(Matching(glob, records[..i], path), start)
  }

  lemma RestStep(glob: (string, string) -> bool, records: seq<Record>, path: string, start: int, i: nat)
    requires i < |records|
    ensures Rest(glob, records, path, start, i + 1) == Rest(glob, records, path, start, i) +
      if Matches(glob, records[i].source, path) && records[i].seqNo > start then [records[i]] else []
  {
    MatchingStep(glob, records, path, i);
    AfterSnoc(Matching(glob, records[..i], path),
              if Matches(glob, records[i].source, path) then [records[i]] else [], start);
  }

  lemma {:induction false} RestGrows(glob: (string, string) -> bool, records: seq<Record>, path: string, start: int,
                                     i: nat)
    requires i <= |records|
    ensures Rest(glob, records, path, start, i) <= Rest(glob, records, path, start, |records|)
    decreases |records| - i
  {
    if i < |records| {
      RestStep(glob, records, path, start, i);
      RestGrows(glob, records, path, start, i + 1);
    }
  }

  lemma RestEnds(glob: (string, string) -> bool, records: seq<Record>, path: string, start: int)
    ensures Rest(glob, records, path, start, |records|) == After(Matching(glob, records, path), start)
    ensures |Rest(glob, records, path, start, 0)| == 0
  {
    assert records[..|records|] == records && |records[..0]| == 0;
  }

  /** One turn of the search: the record is after the cursor and matches, or nothing is yet. */
  /** None of the first `i` records matches and is after the cursor. */
  ghost predicate NoneYet(glob: (string, string) -> bool, records: seq<Record>, path: string, cursor: int, i: nat)
    requires i <= |records|
  {
    |Rest(glob, records, path, cursor, i)| == 0
  }

  lemma NoneAtFirst(glob: (string, string) -> bool, records: seq<Record>, path: string, cursor: int)
    ensures NoneYet(glob, records, path, cursor, 0)
  {
    RestEnds(glob, records, path, cursor);
  }

  lemma NoneAtLast(glob: (string, string) -> bool, records: seq<Record>, path: string, cursor: int)
    requires NoneYet(glob, records, path, cursor, |records|)
    ensures |After(Matching(glob, records, path), cursor)| == 0
  {
    RestEnds(glob, records, path, cursor);
  }

  lemma AnyTurn(glob: (string, string) -> bool, records: seq<Record>, path: string, cursor: int, i: nat)
    requires i < |records| && NoneYet(glob, records, path, cursor, i)
    ensures if Matches(glob, records[i].source, path) && records[i].seqNo > cursor
      then |After(Matching(glob, records, path), cursor)| > 0
      else NoneYet(glob, records, path, cursor, i + 1)
  {
    RestStep(glob, records, path, cursor, i);
    RestGrows(glob, records, path, cursor, i + 1);
    RestEnds(glob, records, path, cursor);
  }

  lemma {:induction false} BytesGrow(records: seq<Record>, i: nat, j: nat)
    requires i <= j <= |records|
    ensures Bytes(records[..i]) <= Bytes(records[..j])
  {
    if i < j {
      BytesGrow(records, i, j - 1);
      assert records[..j][..j - 1] == records[..j - 1];
    }
  }

  lemma {:induction false} LongestIs(records: seq<Record>, maxRecords: int, maxBytes: int, k: nat, n: nat)
    requires k <= n <= |records| && maxRecords >= 0 && Fits(records[..k], maxRecords, maxBytes)
    requires k < |records| ==> !Fits(records[..k + 1], maxRecords, maxBytes)
    ensures Longest(records, maxRecords, maxBytes, n) == k
  {
    if n > k {
      BytesGrow(records, k + 1, n);
      LongestIs(records, maxRecords, maxBytes, k, n - 1);
    }
  }

  ghost predicate IsSelection(rest: seq<Record>, selected: seq<Record>, limits: Limits)
    requires limits.maxRecords > 0
  {
    selected == rest[..Longest(rest, limits.maxRecords, limits.maxBytes, |rest|)]
  }

  /** The loop stops at a record that no longer fits, or at the end. */
  lemma SelectStops(rest: seq<Record>, selected: seq<Record>, r: Record, limits: Limits)
    requires limits.maxRecords > 0 && selected + [r] <= rest && |selected| > 0
    requires Fits(selected, limits.maxRecords, limits.maxBytes)
    requires !Fits(selected + [r], limits.maxRecords, limits.maxBytes)
    ensures IsSelection(rest, selected, limits)
  {
    assert rest[..|selected| + 1] == selected + [r] && rest[..|selected|] == selected;
    LongestIs(rest, limits.maxRecords, limits.maxBytes, |selected|, |rest|);
  }

  lemma SelectEnds(rest: seq<Record>, limits: Limits)
    requires limits.maxRecords > 0 && (|rest| > 0 ==> Fits(rest, limits.maxRecords, limits.maxBytes))
    ensures IsSelection(rest, rest, limits)
  {
    assert rest[..|rest|] == rest;
  }

  /** The running total of the selection, and that what is selected fits. */
  ghost predicate Totals(selected: seq<Record>, total: nat, limits: Limits) {
    if |selected| == 0 then total == 0
    else total == Bytes(selected) && Fits(selected, limits.maxRecords, limits.maxBytes)
  }

  lemma PushTotals(selected: seq<Record>, total: nat, r: Record, limits: Limits)
    requires Totals(selected, total, limits) && limits.maxRecords > 0
    ensures var size := ByteLen(r.data);
      var full := |selected| >= limits.maxRecords || (total + size > limits.maxBytes && |selected| > 0);
      if full then |selected| > 0 && !Fits(selected + [r], limits.maxRecords, limits.maxBytes)
      else Totals(selected + [r], total + size, limits)
  {
    assert (selected + [r])[..|selected|] == selected;
  }

  lemma AddAllStep(digest: string -> string, st: State, rs: seq<Record>, i: nat)
    requires i < |rs|
    ensures AddAll(digest, st, rs[..i + 1]) == AddOne(digest, AddAll(digest, st, rs[..i]), rs[i])
  {
    assert rs[..i + 1][..i] == rs[..i];
  }

  predicate Counts(r: Record) {
    r.source != "" && r.offset > 0
  }

  predicate Attained(records: seq<Record>, source: string, offset: int) {
    exists r :: r in records && Counts(r) && r.source == source && r.offset == offset
  }

  /** The offset each source of a batch is saved with: the largest positive one. */
  ghost predicate IsLatest(records: seq<Record>, latest: map<string, int>) {
    && (forall r :: r in records && Counts(r) ==> r.source in latest && r.offset <= latest[r.source])
    && (forall s :: s in latest ==> Attained(records, s, latest[s]))
  }

  lemma LatestStep(records: seq<Record>, i: nat, latest: map<string, int>)
    requires i < |records| && IsLatest(records[..i], latest)
    ensures var r := records[i];
      IsLatest(records[..i + 1],
        if Counts(r) && (r.source !in latest || r.offset > latest[r.source]) then latest[r.source := r.offset]
        else latest)
  {
    var before, now := records[..i], records[..i + 1];
    assert now == before + [records[i]];
    forall s | s in latest ensures Attained(now, s, latest[s]) {
      assert Attained(before, s, latest[s]);
      var r :| r in before && Counts(r) && r.source == s && r.offset == latest[s];
      assert r in now;
    }
    if Counts(records[i]) {
      assert records[i] in now && Attained(now, records[i].source, records[i].offset);
    }
  }

  /** How the checkpoint store answers a call. */
  type Saver = (string, int) -> bool

  class Service {
    const digest: string -> string
    const glob: (string, string) -> bool
    var records: seq<Record>
    var nextSeq: nat
    var index: map<string, Entry>
    var pending: map<string, Batch>
    var committed: map<string, int>

    ghost function View(): State
      reads this
    {
      State(records, nextSeq, index, pending, committed)
    }

    constructor (digest: string -> string, glob: (string, string) -> bool)
      ensures Init(View()) && this.digest == digest && this.glob == glob
    {
      this.digest, this.glob := digest, glob;
      records, nextSeq, index, pending, committed := [], 0, map[], map[], map[];
    }

    method AppendContinuation(i: nat, record: Record)
      requires i < |records|
      modifies this`records, this`index
      ensures View() == MergeLine(digest, old(View()), i, record)
    {
      var existing := records[i];
      var now := Finalize(digest, Appended(existing, record));
      records := records[i := now];
      if existing.fingerprint != "" && existing.fingerprint != now.fingerprint {
        index := index - {existing.fingerprint};
      }
      index := index[now.fingerprint := Entry(now.seqNo, now.timestamp)];
    }

    method TryAppendContinuation(record: Record) returns (done: bool)
      modifies this`records, this`index
      ensures done <==> Continued(old(records), record) >= 0
      ensures View() ==
        if done then MergeLine(digest, old(View()), Continued(old(records), record), record) else old(View())
    {
      var i := |records| - 1;
      while i >= 0
        invariant -1 <= i < |records|
        invariant Continued(records, record) == Continued(records[..i + 1], record)
        invariant View() == old(View())
      {
        var existing := records[i];
        ContinuedStep(records, i, record);
        if !ShouldContinue(existing, record) {
          i := i - 1;
          continue;
        }
        AppendContinuation(i, record);
        return true;
      }
      done := false;
    }

    method FindRecordIndexBySeq(seqNo: int) returns (i: int)
      ensures i == Find(records, seqNo)
    {
      i := |records| - 1;
      while i >= 0
        invariant -1 <= i < |records|
        invariant Find(records, seqNo) == Find(records[..i + 1], seqNo)
      {
        assert records[..i + 1][..i] == records[..i];
        if records[i].seqNo == seqNo {
          return;
        }
        i := i - 1;
      }
    }

    method TryMergeDuplicate(record: Record) returns (done: bool)
      modifies this`records, this`index
      ensures done <==> Duplicate(old(View()), record) >= 0
      ensures View() ==
        if done then MergeDuplicate(old(View()), Duplicate(old(View()), record), record) else old(View())
    {
      if record.fingerprint == "" || record.fingerprint !in index {
        return false;
      }
      var entry := index[record.fingerprint];
      if record.timestamp - entry.lastSeen > WINDOW {
        return false;
      }
      var i := FindRecordIndexBySeq(entry.seqNo);
      if i < 0 {
        return false;
      }
      var existing := records[i];
      records := records[i := Repeated(existing, record)];
      index := index[record.fingerprint := Entry(existing.seqNo, record.timestamp)];
      done := true;
    }

    method AddRecord(record: Record)
      modifies this
      ensures View() == AddOne(digest, old(View()), record)
    {
      var continued := TryAppendContinuation(record);
      if continued {
        return;
      }
      nextSeq := nextSeq + 1;
      var numbered := record.(seqNo := nextSeq);
      var merged := TryMergeDuplicate(numbered);
      if merged {
        return;
      }
      records := records + [numbered];
      index := index[numbered.fingerprint := Entry(numbered.seqNo, numbered.timestamp)];
    }

    method AddNormalized(normalized: seq<Record>)
      modifies this
      ensures View() == AddAll(digest, old(View()), normalized)
    {
      for i := 0 to |normalized|
        invariant View() == AddAll(digest, old(View()), normalized[..i])
      {
        AddAllStep(digest, old(View()), normalized, i);
        AddRecord(normalized[i]);
      }
      assert normalized[..|normalized|] == normalized;
    }

    method RebuildRecentCache()
      modifies this`index
      ensures index == Reindexed(records)
    {
      index := map[];
      for i := 0 to |records|
        invariant index == Reindexed(records[..i])
      {
        var record := records[i];
        assert records[..i + 1][..i] == records[..i];
        if record.fingerprint == "" {
          continue;
        }
        index := index[record.fingerprint := Entry(record.seqNo, record.timestamp)];
      }
      assert records[..|records|] == records;
    }

    method TrimOverflow()
      modifies this`records, this`index
      ensures View() == Trimmed(old(View()))
    {
      if |records| > MAX_BUFFERED {
        records := records[|records| - MAX_BUFFERED..];
        RebuildRecentCache();
      }
    }

    method AddRecords(lines: seq<Line>)
      requires forall i :: 0 <= i < |lines| ==> Accepted(lines[i])
      modifies this
      ensures View() == AddStep(digest, old(View()), lines)
    {
      if |lines| == 0 {
        return;
      }
      var normalized := NormalizeBatch(digest, lines);
      AddNormalized(normalized);
      TrimOverflow();
    }

    method LatestMatching(path: string) returns (latest: int)
      ensures latest == LastSeq(Matching(glob, records, path))
    {
      latest := 0;
      for i := 0 to |records|
        invariant latest == LastSeq(Matching(glob, records[..i], path))
      {
        MatchingStep(glob, records, path, i);
        if !Matches(glob, records[i].source, path) {
          continue;
        }
        latest := records[i].seqNo;
      }
      assert records[..|records|] == records;
    }

    method Select(path: string, start: int, limits: Limits) returns (selected: seq<Record>)
      requires limits.maxRecords > 0
      ensures IsSelection(After(Matching(glob, records, path), start), selected, limits)
    {
      selected := [];
      var total: nat := 0;
      ghost var rest := Rest(glob, records, path, start, |records|);
      assert records[..|records|] == records;
      for i := 0 to |records|
        invariant selected == Rest(glob, records, path, start, i)
        invariant Totals(selected, total, limits)
      {
        RestStep(glob, records, path, start, i);
        RestGrows(glob, records, path, start, i + 1);
        var record := records[i];
        if !Matches(glob, record.source, path) || record.seqNo <= start {
          continue;
        }
        PushTotals(selected, total, record, limits);
        var size := ByteLen(record.data);
        if |selected| >= limits.maxRecords || (total + size > limits.maxBytes && |selected| > 0) {
          SelectStops(rest, selected, record, limits);
          return;
        }
        selected := selected + [record];
        total := total + size;
      }
      SelectEnds(rest, limits);
    }

    method AnyAfter(path: string, cursor: int) returns (any: bool)
      ensures any <==> |After(Matching(glob, records, path), cursor)| > 0
    {
      NoneAtFirst(glob, records, path, cursor);
      for i := 0 to |records|
        invariant NoneYet(glob, records, path, cursor, i)
      {
        AnyTurn(glob, records, path, cursor, i);
        if Matches(glob, records[i].source, path) && records[i].seqNo > cursor {
          return true;
        }
      }
      NoneAtLast(glob, records, path, cursor);
      any := false;
    }

    method BuildPage(path: string, cursor: Cursor, limits: Limits, batchId: string) returns (out: PullOutcome)
      requires limits.maxRecords > 0
      modifies this`pending
      ensures (View(), out) == PullFrom(glob, old(View()), path, cursor, limits, batchId)
    {
      var start := if cursor.At? then cursor.n else Num(committed, Scope(path));
      var latest := LatestMatching(path);
      var from := if latest > 0 && start > latest then 0 else start;
      assert from == Effective(Matching(glob, records, path), start);
      var selected := Select(path, from, limits);
      assert selected == Selected(Matching(glob, records, path), start, limits);
      if |selected| == 0 {
        return Nothing(cursor);
      }
      var next := selected[|selected| - 1].seqNo;
      assert next == LastSeq(selected);
      var hasMore := AnyAfter(path, next);
      pending := pending[batchId := Batch(path, next, selected)];
      out := Page(batchId, next, hasMore, selected);
    }

    /** One attempt to answer a pull; the service repeats it while the request waits. */
    method Pull(rawCursor: string, rawPath: string, maxRecords: int, maxBytes: int, timeout: int, batchId: string)
      returns (out: PullOutcome)
      modifies this`pending
      ensures (View(), out) == PullStep(glob, old(View()), Trim(Go, rawPath), ReadCursor(rawCursor),
                                        ReadLimits(maxRecords, maxBytes, timeout), batchId)
    {
      var limits := ReadLimits(maxRecords, maxBytes, timeout);
      var cursor := ReadCursor(rawCursor);
      if limits.None? || cursor.Unreadable? {
        return BadRequest;
      }
      var path := Trim(Go, rawPath);
      out := BuildPage(path, cursor, limits.value, batchId);
    }

    static method LatestOffsets(items: seq<Record>) returns (latest: map<string, int>)
      ensures IsLatest(items, latest)
    {
      latest := map[];
      for i := 0 to |items|
        invariant IsLatest(items[..i], latest)
      {
        LatestStep(items, i, latest);
        if items[i].source == "" || items[i].offset <= 0 {
          continue;
        }
        if items[i].source !in latest || items[i].offset > latest[items[i].source] {
          latest := latest[items[i].source := items[i].offset];
        }
      }
      assert items[..|items|] == items;
    }

    static method SaveAll(latest: map<string, int>, saver: Saver) returns (updated: bool)
      ensures updated <==> exists s :: s in latest && saver(s, latest[s])
    {
      updated := false;
      var todo := latest.Keys;
      while todo != {}
        invariant todo <= latest.Keys
        invariant updated <==> exists s :: s in latest.Keys - todo && saver(s, latest[s])
        decreases todo
      {
        var s :| s in todo;
        if saver(s, latest[s]) {
          updated := true;
        }
        todo := todo - {s};
      }
    }

    /** `saves` are the offsets handed to the checkpoint store, in any order; what it answers
        is only reported. */
    method Ack(rawBatchId: string, status: string, reason: string, rawCursor: string, saver: Saver)
      returns (out: AckOutcome, saves: map<string, int>)
      modifies this`pending, this`committed
      ensures var step := AckStep(old(View()), Trim(Go, rawBatchId), ReadVerdict(rawBatchId, status, reason),
                                  ReadCursor(rawCursor));
        && View() == step.0
        && if step.1.Done? && ReadVerdict(rawBatchId, status, reason).Ack? then
             && IsLatest(old(pending)[Trim(Go, rawBatchId)].records, saves)
             && out == Done(exists s :: s in saves && saver(s, saves[s]))
           else out == step.1 && saves == map[]
    {
      saves := map[];
      var verdict := ReadVerdict(rawBatchId, status, reason);
      var batchId := Trim(Go, rawBatchId);
      if verdict.Invalid? {
        return InvalidAck, map[];
      }
      if batchId !in pending {
        return BatchNotFound, map[];
      }
      var batch := pending[batchId];
      pending := pending - {batchId};
      if verdict.Nack? {
        return Done(false), map[];
      }
      var cursor := batch.next;
      var claim := ReadCursor(rawCursor);
      if claim.Unreadable? {
        return BadCommittedCursor, map[];
      }
      if claim.At? && claim.n > cursor {
        cursor := claim.n;
      }
      if cursor > Num(committed, Scope(batch.path)) {
        committed := committed[Scope(batch.path) := cursor];
      }
      saves := LatestOffsets(batch.records);
      var updated := SaveAll(saves, saver);
      out := Done(updated);
    }
  }
}
