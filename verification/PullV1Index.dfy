/** What adding records keeps: the duplicate index agrees with the buffer, and every accepted
    line and every normalised record is accounted for once. */
module PullV1Index {
  import opened Prelude
  import opened Normalize
  import opened PullV1

  // ---- The index agrees with the buffer ----

  /** The sequence numbers strictly increase and none is above `max`. */
  predicate Ordered(records: seq<Record>, max: int) {
    && (forall i :: 0 <= i < |records| ==> 1 <= records[i].seqNo <= max)
    && (forall i, j :: 0 <= i < j < |records| ==> records[i].seqNo < records[j].seqNo)
  }

  predicate Carries(records: seq<Record>, f: string, seqNo: int) {
    exists i :: 0 <= i < |records| && records[i].seqNo == seqNo && records[i].fingerprint == f
  }

  predicate Agrees(records: seq<Record>, index: map<string, Entry>) {
    forall f :: f in index ==> Carries(records, f, index[f].seqNo)
  }

  /** What normalisation gives every record. */
  predicate Normal(r: Record) {
    r.fingerprint != "" && r.multiline.lineCount >= 1
  }

  predicate AllNormal(records: seq<Record>) {
    forall i :: 0 <= i < |records| ==> Normal(records[i])
  }

  ghost predicate Sound(st: State) {
    Ordered(st.records, st.nextSeq) && Agrees(st.records, st.index) && AllNormal(st.records)
  }

  /** The lookup by sequence number never fails, and finds a record with the fingerprint. */
  lemma LookupSucceeds(st: State, f: string)
    requires Ordered(st.records, st.nextSeq) && Agrees(st.records, st.index) && f in st.index
    ensures var i := Find(st.records, st.index[f].seqNo);
      i >= 0 && st.records[i].fingerprint == f
  {
    assert Carries(st.records, f, st.index[f].seqNo);
  }

  lemma OneFingerprintEach(st: State, f: string, g: string)
    requires Ordered(st.records, st.nextSeq) && Agrees(st.records, st.index)
    requires f in st.index && g in st.index && st.index[f].seqNo == st.index[g].seqNo
    ensures f == g
  {
    LookupSucceeds(st, f);
    LookupSucceeds(st, g);
  }

  lemma InPlaceOrdered(records: seq<Record>, max: int, i: nat, r: Record)
    requires Ordered(records, max) && i < |records| && r.seqNo == records[i].seqNo
    ensures Ordered(records[i := r], max)
  {
  }

  lemma InPlaceAgrees(records: seq<Record>, index: map<string, Entry>, i: nat, r: Record, seen: int)
    requires Agrees(records, index) && i < |records|
    requires r.seqNo == records[i].seqNo && records[i].fingerprint != ""
    ensures var f := records[i].fingerprint;
      Agrees(records[i := r], (if f != "" && f != r.fingerprint then index - {f} else index)
                              [r.fingerprint := Entry(r.seqNo, seen)])
  {
    var after := records[i := r];
    var f := records[i].fingerprint;
    assert after[i] == r;
    assert Carries(after, r.fingerprint, r.seqNo);
    forall g | g in index && g != f && g != r.fingerprint ensures Carries(after, g, index[g].seqNo) {
      assert Carries(records, g, index[g].seqNo);
      var j :| 0 <= j < |records| && records[j].seqNo == index[g].seqNo && records[j].fingerprint == g;
      assert after[j] == records[j];
    }
  }

  lemma PushAgrees(records: seq<Record>, index: map<string, Entry>, r: Record, seen: int)
    requires Agrees(records, index)
    ensures Agrees(records + [r], index[r.fingerprint := Entry(r.seqNo, seen)])
  {
    var after := records + [r];
    assert after[|records|] == r;
    assert Carries(after, r.fingerprint, r.seqNo);
    forall g | g in index && g != r.fingerprint ensures Carries(after, g, index[g].seqNo) {
      assert Carries(records, g, index[g].seqNo);
      var j :| 0 <= j < |records| && records[j].seqNo == index[g].seqNo && records[j].fingerprint == g;
      assert after[j] == records[j];
    }
  }

  lemma {:induction false} ReindexedAgrees(records: seq<Record>)
    requires AllNormal(records)
    ensures Agrees(records, Reindexed(records))
  {
    if records != [] {
      var n := |records| - 1;
      ReindexedAgrees(records[..n]);
      PushAgrees(records[..n], Reindexed(records[..n]), records[n], records[n].timestamp);
      assert records == records[..n] + [records[n]];
    }
  }

  /** What an in-place edit of a buffered record leaves alone, and what it adds. */
  ghost predicate Edited(was: Record, now: Record, lines: int, occurrences: int) {
    && now.seqNo == was.seqNo && now.source == was.source && Normal(now)
    && now.multiline.lineCount == was.multiline.lineCount + lines
    && Max(1, now.dedup.count) == Max(1, was.dedup.count) + occurrences
  }

  lemma ContinuationEdits(digest: string -> string, was: Record, r: Record)
    requires Normal(was) && Normal(r)
    ensures Edited(was, Finalize(digest, Appended(was, r)), r.multiline.lineCount, 0)
  {
  }

  lemma RepetitionEdits(was: Record, r: Record)
    requires Normal(was)
    ensures Edited(was, Repeated(was, r), 0, 1) && Repeated(was, r).fingerprint == was.fingerprint
  {
  }

  lemma MergeLineSound(digest: string -> string, st: State, i: nat, r: Record)
    requires Sound(st) && i < |st.records| && Normal(r)
    ensures Sound(MergeLine(digest, st, i, r))
  {
    var was := st.records[i];
    var now := Finalize(digest, Appended(was, r));
    assert Normal(was);
    ContinuationEdits(digest, was, r);
    InPlaceOrdered(st.records, st.nextSeq, i, now);
    InPlaceAgrees(st.records, st.index, i, now, now.timestamp);
  }

  lemma MergeDuplicateSound(st: State, i: nat, r: Record)
    requires Sound(st) && i < |st.records| && st.records[i].fingerprint == r.fingerprint
    ensures Sound(MergeDuplicate(st, i, r))
  {
    var was := st.records[i];
    assert Normal(was);
    RepetitionEdits(was, r);
    InPlaceOrdered(st.records, st.nextSeq, i, Repeated(was, r));
    InPlaceAgrees(st.records, st.index, i, Repeated(was, r), r.timestamp);
  }

  lemma PushSound(st: State, r: Record)
    requires Sound(st) && Normal(r)
    ensures Sound(Push(st.(nextSeq := st.nextSeq + 1), r.(seqNo := st.nextSeq + 1)))
  {
    PushAgrees(st.records, st.index, r.(seqNo := st.nextSeq + 1), r.timestamp);
  }

  /** A duplicate is found exactly when its fingerprint was indexed within the window, and the
      record found carries that fingerprint. */
  lemma DuplicateFound(st: State, r: Record)
    requires Ordered(st.records, st.nextSeq) && Agrees(st.records, st.index) && r.fingerprint != ""
    ensures Duplicate(st, r) >= 0 <==>
      r.fingerprint in st.index && r.timestamp - st.index[r.fingerprint].lastSeen <= WINDOW
    ensures Duplicate(st, r) >= 0 ==>
      st.records[Duplicate(st, r)].fingerprint == r.fingerprint
      && st.records[Duplicate(st, r)].seqNo == st.index[r.fingerprint].seqNo
  {
    if r.fingerprint in st.index {
      LookupSucceeds(st, r.fingerprint);
    }
  }

  lemma AgainFound(st: State, r: Record)
    requires Sound(st) && Normal(r) && Fate(st, r).Again?
    ensures st.records[Fate(st, r).i].fingerprint == r.fingerprint
  {
    DuplicateFound(st, r);
  }

  lemma AgainSound(digest: string -> string, st: State, r: Record)
    requires Sound(st) && Normal(r) && Fate(st, r).Again?
    ensures Sound(AddOne(digest, st, r))
  {
    var i := Fate(st, r).i;
    AgainFound(st, r);
    MergeDuplicateSound(st.(nextSeq := st.nextSeq + 1), i, r.(seqNo := st.nextSeq + 1));
  }

  lemma AddOneSound(digest: string -> string, st: State, r: Record)
    requires Sound(st) && Normal(r)
    ensures Sound(AddOne(digest, st, r))
  {
    match Fate(st, r)
    case Continuation(i) => MergeLineSound(digest, st, i, r);
    case Again(_) => AgainSound(digest, st, r);
    case Fresh => PushSound(st, r);
  }

  lemma {:induction false} AddAllSound(digest: string -> string, st: State, rs: seq<Record>)
    requires Sound(st) && AllNormal(rs)
    ensures Sound(AddAll(digest, st, rs))
  {
    if rs != [] {
      AddAllSound(digest, st, rs[..|rs| - 1]);
      assert Normal(rs[|rs| - 1]);
      AddOneSound(digest, AddAll(digest, st, rs[..|rs| - 1]), rs[|rs| - 1]);
    }
  }

  lemma TrimmedSound(st: State)
    requires Sound(st)
    ensures Sound(Trimmed(st))
  {
    if |st.records| > MAX_BUFFERED {
      ReindexedAgrees(st.records[|st.records| - MAX_BUFFERED..]);
    }
  }

  /** A record as the grouping gives it, not yet buffered. */
  predicate Plain(r: Record) {
    Normal(r) && r.dedup.count == 0
  }

  predicate AllPlain(records: seq<Record>) {
    forall i :: 0 <= i < |records| ==> Plain(records[i])
  }

  lemma RunPlain(digest: string -> string, lines: seq<Line>, a: nat, n: nat)
    requires a < n <= |lines|
    ensures Plain(Finalize(digest, Merged(lines[a..n])))
  {
  }

  lemma {:induction false} GroupedPlain(digest: string -> string, lines: seq<Line>, n: nat)
    requires n <= |lines|
    ensures AllPlain(Grouped(digest, lines, n))
    decreases n
  {
    if n > 0 {
      var a := StartOf(lines, n - 1);
      GroupedPlain(digest, lines, a);
      RunPlain(digest, lines, a, n);
    }
  }

  /** At the end of every call the index agrees with the buffer. */
  lemma AddKeepsSound(digest: string -> string, st: State, lines: seq<Line>)
    requires Sound(st)
    ensures Sound(AddStep(digest, st, lines))
  {
    if lines != [] {
      var rs := Grouped(digest, lines, |lines|);
      GroupedPlain(digest, lines, |lines|);
      AddAllSound(digest, st, rs);
      TrimmedSound(AddAll(digest, st, rs));
    }
  }

  // ---- Nothing is lost or counted twice ----

  /** What has happened to added lines besides being buffered. */
  datatype Ledger = Ledger(evicted: seq<Record>, duplicates: seq<Record>, continuations: nat, lines: nat, records: nat)

  function Note(l: Ledger, how: How, r: Record): Ledger {
    match how
    case Continuation(_) => l.(continuations := l.continuations + 1, records := l.records + 1)
    case Again(_) => l.(duplicates := l.duplicates + [r], records := l.records + 1)
    case Fresh => l.(records := l.records + 1)
  }

  function NoteAll(digest: string -> string, st: State, l: Ledger, rs: seq<Record>): Ledger {
    if rs == [] then l
    else
      var before := rs[..|rs| - 1];
      Note(NoteAll(digest, st, l, before), Fate(AddAll(digest, st, before), rs[|rs| - 1]), rs[|rs| - 1])
  }

  function Excess(st: State): (r: seq<Record>) {
    if |st.records| <= MAX_BUFFERED then [] else st.records[..|st.records| - MAX_BUFFERED]
  }

  function NoteAdd(digest: string -> string, st: State, l: Ledger, lines: seq<Line>): Ledger {
    if lines == [] then l
    else
      var rs := Grouped(digest, lines, |lines|);
      var noted := NoteAll(digest, st, l, rs);
      noted.(evicted := noted.evicted + Excess(AddAll(digest, st, rs)), lines := noted.lines + |lines|)
  }

  /** How many normalised records a buffered record stands for, as its duplicate count says. */
  function Occurrences(r: Record): int {
    Max(1, r.dedup.count)
  }

  function LinesHeld(st: State, l: Ledger): int {
    LineSum(st.records) + LineSum(l.evicted) + LineSum(l.duplicates)
  }

  function RecordsHeld(st: State, l: Ledger): int {
    Sum(st.records, Occurrences) + Sum(l.evicted, Occurrences) + l.continuations
  }

  lemma EditCounts(records: seq<Record>, i: nat, now: Record, lines: int, occurrences: int)
    requires i < |records| && Edited(records[i], now, lines, occurrences)
    ensures LineSum(records[i := now]) == LineSum(records) + lines
    ensures Sum(records[i := now], Occurrences) == Sum(records, Occurrences) + occurrences
  {
    SumUpdate(records, i, now, LineCount);
    SumUpdate(records, i, now, Occurrences);
  }

  lemma PushCounts(records: seq<Record>, r: Record)
    ensures LineSum(records + [r]) == LineSum(records) + LineCount(r)
    ensures Sum(records + [r], Occurrences) == Sum(records, Occurrences) + Occurrences(r)
  {
    assert (records + [r])[..|records|] == records;
  }

  lemma AddOneCounts(digest: string -> string, st: State, l: Ledger, r: Record)
    requires Sound(st) && Normal(r) && r.dedup.count == 0
    ensures var st' := AddOne(digest, st, r); var l' := Note(l, Fate(st, r), r);
      && LinesHeld(st', l') == LinesHeld(st, l) + LineCount(r)
      && RecordsHeld(st', l') - l'.records == RecordsHeld(st, l) - l.records
  {
    var fate := Fate(st, r);
    if fate.Continuation? {
      assert Normal(st.records[fate.i]);
      ContinuationEdits(digest, st.records[fate.i], r);
      EditCounts(st.records, fate.i, Finalize(digest, Appended(st.records[fate.i], r)), LineCount(r), 0);
    } else if fate.Again? {
      assert Normal(st.records[fate.i]);
      var numbered := r.(seqNo := st.nextSeq + 1);
      RepetitionEdits(st.records[fate.i], numbered);
      EditCounts(st.records, fate.i, Repeated(st.records[fate.i], numbered), 0, 1);
      PushCounts(l.duplicates, r);
    } else {
      PushCounts(st.records, r.(seqNo := st.nextSeq + 1));
    }
  }

  lemma {:induction false} AddAllCounts(digest: string -> string, st: State, l: Ledger, rs: seq<Record>)
    requires Sound(st) && AllPlain(rs)
    ensures var st' := AddAll(digest, st, rs); var l' := NoteAll(digest, st, l, rs);
      && LinesHeld(st', l') == LinesHeld(st, l) + LineSum(rs)
      && RecordsHeld(st', l') - l'.records == RecordsHeld(st, l) - l.records
      && l'.evicted == l.evicted && l'.lines == l.lines && l'.records == l.records + |rs|
  {
    if rs != [] {
      var n := |rs| - 1;
      AddAllCounts(digest, st, l, rs[..n]);
      AddAllSound(digest, st, rs[..n]);
      assert Plain(rs[n]);
      AddOneCounts(digest, AddAll(digest, st, rs[..n]), NoteAll(digest, st, l, rs[..n]), rs[n]);
    }
  }

  lemma TrimmedCounts(st: State, l: Ledger)
    ensures var l' := l.(evicted := l.evicted + Excess(st));
      LinesHeld(Trimmed(st), l') == LinesHeld(st, l) && RecordsHeld(Trimmed(st), l') == RecordsHeld(st, l)
  {
    if |st.records| > MAX_BUFFERED {
      var rest := st.records[|st.records| - MAX_BUFFERED..];
      assert st.records == Excess(st) + rest;
      SumConcat(Excess(st), rest, LineCount);
      SumConcat(Excess(st), rest, Occurrences);
      SumConcat(l.evicted, Excess(st), LineCount);
      SumConcat(l.evicted, Excess(st), Occurrences);
    } else {
      assert l.evicted + [] == l.evicted;
    }
  }

  /** Every accepted line is in a buffered, evicted or merged duplicate record; every
      normalised record is a buffered or evicted occurrence or a late continuation. */
  ghost predicate Conserved(st: State, l: Ledger) {
    LinesHeld(st, l) == l.lines && RecordsHeld(st, l) == l.records
  }

  lemma AddConserves(digest: string -> string, st: State, l: Ledger, lines: seq<Line>)
    requires Sound(st) && Conserved(st, l)
    requires forall i :: 0 <= i < |lines| ==> Accepted(lines[i])
    ensures Conserved(AddStep(digest, st, lines), NoteAdd(digest, st, l, lines))
  {
    if lines != [] {
      var rs := Grouped(digest, lines, |lines|);
      GroupedPlain(digest, lines, |lines|);
      LinesAreCounted(digest, lines, |lines|);
      AddAllCounts(digest, st, l, rs);
      TrimmedCounts(AddAll(digest, st, rs), NoteAll(digest, st, l, rs));
    }
  }
}
