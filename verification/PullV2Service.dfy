/** The pull service as it runs: fields updated in place, loops over slices, and a prune that
    compacts a slice within its own backing array. Each method is proved against PullV2. */
module PullV2Service {
  import opened Prelude
  import opened Text
  import opened PullV2

  lemma AfterCons(x: Buffered, rest: seq<Buffered>, all: seq<Buffered>, cursor: int)
    requires all == [x] + rest
    ensures x.seqNo > cursor ==> After(all, cursor) == [x] + After(rest, cursor)
    ensures x.seqNo <= cursor ==> After(all, cursor) == After(rest, cursor)
  {
    assert all[0] == x && all[1..] == rest;
  }

  lemma ConsAppend(x: Buffered, p: seq<Buffered>, q: seq<Buffered>)
    ensures [x] + (p + q) == [x] + p + q
  {
  }

  lemma {:induction false} AfterSplits(a: seq<Buffered>, b: seq<Buffered>, cursor: int)
    ensures After(a + b, cursor) == After(a, cursor) + After(b, cursor)
  {
    if |a| == 0 {
      assert a + b == b;
      assert |After(a, cursor)| == 0;
    } else {
      var first, more, rest := a[0], a[1..], a[1..] + b;
      AfterSplits(more, b, cursor);
      AfterCons(first, more, a, cursor);
      AfterCons(first, rest, a + b, cursor);
      if first.seqNo > cursor {
        ConsAppend(first, After(more, cursor), After(b, cursor));
      }
    }
  }

  lemma AfterStep(s: seq<Buffered>, i: nat, cursor: int)
    requires i < |s|
    ensures After(s[..i + 1], cursor) == After(s[..i], cursor) + if s[i].seqNo > cursor then [s[i]] else []
    ensures After(s, cursor) == After(s[..i + 1], cursor) + After(s[i + 1..], cursor)
  {
    assert s[..i + 1] == s[..i] + [s[i]] && s == s[..i + 1] + s[i + 1..];
    AfterSplits(s[..i], [s[i]], cursor);
    AfterSplits(s[..i + 1], s[i + 1..], cursor);
    assert [s[i]][1..] == [];
  }

  /** Keeps the records numbered after the cursor. The kept records are written over the front
      of the array being read, as `records[:0]` shares its backing array; the result is a copy. */
  method PruneCommitted(a: array<Buffered>, cursor: nat) returns (kept: seq<Buffered>)
    modifies a
    ensures kept == After(old(a[..]), cursor)
  {
    ghost var was := a[..];
    var keep := 0;
    for i := 0 to a.Length
      invariant keep <= i
      invariant forall j :: i <= j < a.Length ==> a[j] == was[j]
      invariant a[..keep] == After(was[..i], cursor)
    {
      var item := a[i];
      AfterStep(was, i, cursor);
      if item.seqNo > cursor {
        a[keep] := item;
        keep := keep + 1;
      }
    }
    assert was[..a.Length] == was;
    kept := a[..keep];
  }

  lemma SavesOne(source: string, latest: map<string, int>, fails: SaveCall -> bool, calls: seq<SaveCall>,
                 call: SaveCall)
    requires IsSaving(source, latest, fails, calls) && forall i :: 0 <= i < |calls| ==> !fails(calls[i])
    requires call.source == source && call.filePath in latest && call.offset == latest[call.filePath]
    requires call.filePath !in Files(calls)
    ensures IsSaving(source, latest, fails, calls + [call])
    ensures Files(calls + [call]) == Files(calls) + {call.filePath}
  {
    assert forall i :: 0 <= i < |calls| ==> calls[i] in calls && calls[i].filePath in Files(calls);
    assert call in calls + [call];
  }

  class Service {
    const maxBuffered: int
    const hasSaver: bool
    var nextSeq: map<string, nat>
    var committed: map<string, nat>
    var records: map<string, seq<Buffered>>
    var pending: map<string, Batch>

    ghost function View(): State
      reads this
    {
      State(maxBuffered, nextSeq, committed, records, pending)
    }

    constructor (limit: int, hasSaver: bool)
      ensures View() == Init(limit) && this.hasSaver == hasSaver
    {
      maxBuffered := if limit <= 0 then DEFAULT_BUFFERED else limit;
      this.hasSaver := hasSaver;
      nextSeq, committed, records, pending := map[], map[], map[], map[];
    }

    static method AppendAll(key: string, buffer: seq<Buffered>, last: nat, now: int, items: seq<Record>)
      returns (current: seq<Buffered>)
      ensures current == buffer + Numbered(key, last, now, items)
    {
      current := buffer;
      var n := last;
      for i := 0 to |items|
        invariant n == last + i
        invariant current == buffer + Numbered(key, last, now, items)[..i]
      {
        n := n + 1;
        current := current + [Buffered(n, Normalize(key, n, now, items[i]))];
      }
    }

    method Append(sourceKey: string, items: seq<Record>, now: int) returns (out: AppendOutcome)
      modifies this
      ensures (View(), out) == AppendStep(old(View()), Trim(Go, sourceKey), items, now)
    {
      var key := Trim(Go, sourceKey);
      if key == [] {
        return AppendSourceRequired;
      }
      if |items| == 0 {
        return Appended;
      }
      var current := Buf(records, key);
      if |current| + |items| > maxBuffered {
        return BufferFull;
      }
      var last := Num(nextSeq, key);
      current := AppendAll(key, current, last, now, items);
      nextSeq := nextSeq[key := last + |items|];
      records := records[key := current];
      out := Appended;
    }

    static method Select(sourceRecords: seq<Buffered>, start: nat, max: nat) returns (selected: seq<Buffered>)
      requires max > 0
      ensures selected == Take(After(sourceRecords, start), max)
    {
      selected := [];
      for i := 0 to |sourceRecords|
        invariant selected == After(sourceRecords[..i], start) && |selected| < max
      {
        AfterStep(sourceRecords, i, start);
        if sourceRecords[i].seqNo <= start {
          continue;
        }
        selected := selected + [sourceRecords[i]];
        if |selected| >= max {
          return;
        }
      }
      assert sourceRecords[..|sourceRecords|] == sourceRecords;
    }

    static method AnyAfter(sourceRecords: seq<Buffered>, cursor: nat) returns (any: bool)
      ensures any <==> After(sourceRecords, cursor) != []
    {
      for i := 0 to |sourceRecords|
        invariant After(sourceRecords[..i], cursor) == []
      {
        AfterStep(sourceRecords, i, cursor);
        if sourceRecords[i].seqNo > cursor {
          return true;
        }
      }
      assert sourceRecords[..|sourceRecords|] == sourceRecords;
      any := false;
    }

    method PullFromCursor(key: string, start: nat, max: nat, batchId: string) returns (out: PullOutcome)
      requires max > 0
      modifies this`pending
      ensures (View(), out) == PullFrom(old(View()), key, start, max, batchId)
    {
      var sourceRecords := Buf(records, key);
      var selected := Select(sourceRecords, start, max);
      if |selected| == 0 {
        return Page(None, key, start, start, false, []);
      }
      var next := selected[|selected| - 1].seqNo;
      var hasMore := AnyAfter(sourceRecords, next);
      pending := pending[batchId := Batch(key, next, selected)];
      out := Page(Some(batchId), key, start, next, hasMore, Bodies(selected));
    }

    /** `batchId` is the fresh random id the service draws. */
    method Pull(sourceKey: string, cursor: string, maxRecords: int, batchId: string) returns (out: PullOutcome)
      modifies this`pending
      ensures (View(), out) == PullStep(old(View()), Trim(Go, sourceKey), ReadCursor(cursor), maxRecords, batchId)
    {
      var key := Trim(Go, sourceKey);
      if key == [] {
        return PullSourceRequired;
      }
      match ReadCursor(cursor)
      case Unreadable =>
        out := BadCursor;
      case Committed =>
        out := PullFromCursor(key, Num(committed, key), PullLimit(maxRecords), batchId);
      case At(n) =>
        out := PullFromCursor(key, n, PullLimit(maxRecords), batchId);
    }

    static method LatestOffsets(items: seq<Buffered>) returns (latest: map<string, int>)
      ensures IsLatest(items, latest)
    {
      latest := map[];
      for i := 0 to |items|
        invariant IsLatest(items[..i], latest)
      {
        ghost var before := latest;
        var item := items[i];
        assert items[..i + 1] == items[..i] + [item];
        if Blank(Go, item.record.filePath) || item.record.offset <= 0 {
          continue;
        }
        var file := item.record.filePath;
        if item.record.offset > (if file in latest then latest[file] else 0) {
          latest := latest[file := item.record.offset];
          assert item in items[..i + 1];
        }
        assert forall f :: f in before && f in latest && latest[f] == before[f] ==>
          exists b :: b in items[..i] && HasOffset(b) && b.record.filePath == f && b.record.offset == latest[f];
      }
      assert items[..|items|] == items;
    }

    /** Hands each file's offset to the saver until a call fails. `fails` is how the saver
        answers; the files come in the arbitrary order of map iteration. */
    static method SaveAll(source: string, latest: map<string, int>, fails: SaveCall -> bool)
      returns (calls: seq<SaveCall>, failed: bool)
      ensures IsSaving(source, latest, fails, calls)
      ensures failed <==> calls != [] && fails(calls[|calls| - 1])
      ensures !failed ==> latest.Keys == Files(calls)
    {
      calls, failed := [], false;
      var todo := latest.Keys;
      while todo != {}
        invariant todo <= latest.Keys && IsSaving(source, latest, fails, calls)
        invariant latest.Keys - todo == Files(calls)
        invariant forall i :: 0 <= i < |calls| ==> !fails(calls[i])
        decreases todo
      {
        var file :| file in todo;
        var call := SaveCall(source, file, latest[file]);
        SavesOne(source, latest, fails, calls, call);
        calls := calls + [call];
        if fails(call) {
          return calls, true;
        }
        todo := todo - {file};
      }
    }

    method CommitBatch(batchId: string, batch: Batch)
      modifies this
      ensures View() == Commit(old(View()), batchId, batch)
    {
      var buffer := Buf(records, batch.source);
      var a := new Buffered[|buffer|](i requires 0 <= i < |buffer| => buffer[i]);
      assert a[..] == buffer;
      committed := committed[batch.source := batch.next];
      var kept := PruneCommitted(a, batch.next);
      records := records[batch.source := kept];
      pending := pending - {batchId};
    }

    method Ack(rawBatchId: string, status: string, rawCursor: string, fails: SaveCall -> bool)
      returns (out: AckOutcome, calls: seq<SaveCall>)
      modifies this
      ensures AckStep(old(View()), AckRequest(Trim(Go, rawBatchId), status == "nack", Trim(Go, rawCursor)),
                      hasSaver, fails, View(), calls, out)
    {
      var batchId := Trim(Go, rawBatchId);
      if batchId == [] || batchId !in pending {
        return BatchNotFound, [];
      }
      var batch := pending[batchId];
      var cursor := FormatNat(batch.next);
      var raw := Trim(Go, rawCursor);
      if raw != [] && raw != cursor {
        return CursorMismatch, [];
      }
      assert Addressed(View(), AckRequest(batchId, status == "nack", raw)) == Ok(batch);
      if status == "nack" {
        pending := pending - {batchId};
        return Accepted(false, batch.source, cursor), [];
      }
      var latest := LatestOffsets(batch.records);
      calls := [];
      if hasSaver {
        var failed;
        calls, failed := SaveAll(batch.source, latest, fails);
        if failed {
          out := SaveFailed(calls[|calls| - 1].filePath);
          assert SavedWith(latest, View(), batchId, batch, hasSaver, fails, View(), calls, out);
          return;
        }
      }
      CommitBatch(batchId, batch);
      out := Accepted(latest != map[], batch.source, cursor);
      assert SavedWith(latest, old(View()), batchId, batch, hasSaver, fails, View(), calls, out);
    }
  }
}
