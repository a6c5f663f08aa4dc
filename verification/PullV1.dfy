/** The pull service, version 1: one buffer for all sources, with a duplicate index by
    fingerprint, late continuation lines merged into buffered records, and pages limited by
    records and bytes. This module gives the values and the effect of each operation. */
module PullV1 {
  import opened Prelude
  import opened Text
  import opened Normalize

  const MAX_BUFFERED := 20000
  const WINDOW := 10_000_000_000
  const DEFAULT_RECORDS := 200
  const MAX_RECORDS := 1000
  const DEFAULT_BYTES := 1024 * 1024
  const MAX_BYTES := 5 * 1024 * 1024

  datatype Entry = Entry(seqNo: int, lastSeen: int)

  datatype Batch = Batch(path: string, next: int, records: seq<Record>)

  datatype State = State(
    records: seq<Record>,
    nextSeq: nat,
    index: map<string, Entry>,
    pending: map<string, Batch>,
    committed: map<string, int>)

  ghost predicate Init(st: State) {
    |st.records| == 0 && st.nextSeq == 0 && st.index == map[] && st.pending == map[] && st.committed == map[]
  }

  function Num(m: map<string, int>, key: string): int {
    if key in m then m[key] else 0
  }

  // ---- Adding records ----

  predicate ShouldContinue(current: Record, next: Record) {
    && current.timestamp <= next.timestamp <= current.timestamp + WINDOW
    && Takes(current.source, current.instance, LastLine(current.data), current.multiline.enabled,
             next.source, next.instance, next.data)
  }

  function Appended(current: Record, next: Record): Record {
    var m := current.multiline;
    current.(
      multiline := Multiline(true, Max(1, m.lineCount) + Max(1, next.multiline.lineCount), m.start, next.offset,
                             m.dropped + next.multiline.dropped),
      offset := next.offset,
      data := current.data + "\n" + next.data,
      original := if Blank(Go, next.original) then current.original
                  else if Blank(Go, current.original) then next.original
                  else current.original + "\n" + next.original,
      timestamp := Max(current.timestamp, next.timestamp),
      severity := Higher(current.severity, next.severity))
  }

  /** The last position whose element satisfies the test, or -1. */
  function LastWhere<T>(s: seq<T>, p: T -> bool): (i: int)
    ensures -1 <= i < |s|
    ensures i >= 0 ==> p(s[i])
    ensures forall j :: i < j < |s| ==> !p(s[j])
  {
    var n := |s| - 1;
    if n < 0 || p(s[n]) then n else LastWhere(s[..n], p)
  }

  /** The last buffered record that the new one continues, or -1. */
  function Continued(records: seq<Record>, next: Record): (i: int)
    ensures -1 <= i < |records|
  {
    LastWhere(records, (r: Record) => ShouldContinue(r, next))
  }

  /** Searching from the end, one record at a time. */
  lemma ContinuedStep(records: seq<Record>, i: nat, next: Record)
    requires i < |records|
    ensures Continued(records[..i + 1], next) ==
            if ShouldContinue(records[i], next) then i else Continued(records[..i], next)
  {
    assert records[..i + 1][..i] == records[..i];
  }

  /** The position of the record with this number, searched from the end, or -1. */
  function Find(records: seq<Record>, seqNo: int): (i: int)
    ensures -1 <= i < |records|
    ensures i >= 0 ==> records[i].seqNo == seqNo
    ensures forall j :: i < j < |records| ==> records[j].seqNo != seqNo
  {
    var n := |records| - 1;
    if n < 0 || records[n].seqNo == seqNo then n else Find(records[..n], seqNo)
  }

  function Shown(timestamp: int): int {
    if timestamp <= 0 then 0 else timestamp
  }

  function Repeated(existing: Record, again: Record): Record {
    var first := if existing.dedup.count <= 0 then Shown(existing.timestamp) else existing.dedup.firstSeen;
    existing.(dedup := Dedup(true, Max(1, existing.dedup.count) + 1, first, Shown(again.timestamp), WINDOW_SECONDS,
                             if existing.multiline.enabled || again.multiline.enabled then "multiline" else "exact"))
  }

  /** Where a record's duplicate is buffered, if one was seen within the window; else -1. */
  function Duplicate(st: State, r: Record): (i: int)
    ensures -1 <= i < |st.records|
  {
    if r.fingerprint == "" || r.fingerprint !in st.index then -1
    else
      var e := st.index[r.fingerprint];
      if r.timestamp - e.lastSeen > WINDOW then -1 else Find(st.records, e.seqNo)
  }

  function MergeLine(digest: string -> string, st: State, i: nat, r: Record): State
    requires i < |st.records|
  {
    var was := st.records[i];
    var now := Finalize(digest, Appended(was, r));
    var index := if was.fingerprint != "" && was.fingerprint != now.fingerprint
                 then st.index - {was.fingerprint} else st.index;
    st.(records := st.records[i := now],
        index := index[now.fingerprint := Entry(now.seqNo, now.timestamp)])
  }

  function MergeDuplicate(st: State, i: nat, r: Record): State
    requires i < |st.records|
  {
    st.(records := st.records[i := Repeated(st.records[i], r)],
        index := st.index[r.fingerprint := Entry(st.records[i].seqNo, r.timestamp)])
  }

  function Push(st: State, r: Record): State {
    st.(records := st.records + [r], index := st.index[r.fingerprint := Entry(r.seqNo, r.timestamp)])
  }

  datatype How = Continuation(i: nat) | Again(i: nat) | Fresh

  /** What becomes of one normalised record. A number is drawn even for a duplicate. */
  function Fate(st: State, r: Record): (how: How)
    ensures how.Continuation? ==> how.i < |st.records|
    ensures how.Again? ==> how.i < |st.records|
  {
    var c := Continued(st.records, r);
    if c >= 0 then Continuation(c)
    else
      var d := Duplicate(st, r);
      if d >= 0 then Again(d) else Fresh
  }

  function AddOne(digest: string -> string, st: State, r: Record): State {
    var numbered := r.(seqNo := st.nextSeq + 1);
    var counted := st.(nextSeq := st.nextSeq + 1);
    match Fate(st, r)
    case Continuation(i) => MergeLine(digest, st, i, r)
    case Again(i) => MergeDuplicate(counted, i, numbered)
    case Fresh => Push(counted, numbered)
  }

  function AddAll(digest: string -> string, st: State, rs: seq<Record>): State {
    if rs == [] then st
    else AddOne(digest, AddAll(digest, st, rs[..|rs| - 1]), rs[|rs| - 1])
  }

  function Reindexed(records: seq<Record>): (m: map<string, Entry>) {
    if records == [] then map[]
    else
      var r := records[|records| - 1];
      var before := Reindexed(records[..|records| - 1]);
      if r.fingerprint == "" then before else before[r.fingerprint := Entry(r.seqNo, r.timestamp)]
  }

  /** The oldest records are dropped when the buffer is over its limit. */
  function Trimmed(st: State): State {
    if |st.records| <= MAX_BUFFERED then st
    else
      var rest := st.records[|st.records| - MAX_BUFFERED..];
      st.(records := rest, index := Reindexed(rest))
  }

  /** `lines` are the accepted lines of one batch. */
  function AddStep(digest: string -> string, st: State, lines: seq<Line>): State {
    if lines == [] then st else Trimmed(AddAll(digest, st, Grouped(digest, lines, |lines|)))
  }

  // ---- Pulling ----

  /** A request's patterns, separated by commas; none means every record matches. */
  function Patterns(path: string): (r: seq<string>) {
    NonEmptyTrimmed(Split(path, ','))
  }

  /** `glob` says whether a pattern is well formed and matches a path. */
  predicate Matches(glob: (string, string) -> bool, source: string, path: string) {
    var s := Trim(Go, source);
    || Patterns(path) == []
    || (s != "" && exists p :: p in Patterns(path) && (glob(p, s) || p == s))
  }

  function Matching(glob: (string, string) -> bool, records: seq<Record>, path: string): (r: seq<Record>) {
    if records == [] then []
    else
      var n := |records| - 1;
      Matching(glob, records[..n], path) + if Matches(glob, records[n].source, path) then [records[n]] else []
  }

  function After(records: seq<Record>, cursor: int): (r: seq<Record>) {
    if records == [] then []
    else
      var n := |records| - 1;
      After(records[..n], cursor) + if records[n].seqNo > cursor then [records[n]] else []
  }

  function Bytes(records: seq<Record>): (n: nat) {
    if records == [] then 0
    else Bytes(records[..|records| - 1]) + ByteLen(records[|records| - 1].data)
  }

  /** Within both limits; a single record is never too big. */
  predicate Fits(page: seq<Record>, maxRecords: int, maxBytes: int) {
    |page| <= maxRecords && (|page| <= 1 || Bytes(page) <= maxBytes)
  }

  /** The length of the longest fitting prefix of at most `n` records. */
  function Longest(records: seq<Record>, maxRecords: int, maxBytes: int, n: nat): (k: nat)
    requires n <= |records| && maxRecords >= 0
    ensures k <= n && Fits(records[..k], maxRecords, maxBytes)
    ensures forall j :: k < j <= n ==> !Fits(records[..j], maxRecords, maxBytes)
  {
    if n == 0 || Fits(records[..n], maxRecords, maxBytes) then n else Longest(records, maxRecords, maxBytes, n - 1)
  }

  function Scope(path: string): (key: string) {
    if path == "" then "*" else path
  }

  function LastSeq(records: seq<Record>): int {
    if records == [] then 0 else records[|records| - 1].seqNo
  }

  /** A cursor past every matching record starts again from the beginning. */
  function Effective(matching: seq<Record>, start: int): int {
    if LastSeq(matching) > 0 && start > LastSeq(matching) then 0 else start
  }

  datatype Limits = Limits(maxRecords: int, maxBytes: int)

  datatype Cursor = Committed | At(n: nat) | Unreadable

  function ReadCursor(raw: string): (c: Cursor) {
    var text := Trim(Go, raw);
    if text == "" then Committed
    else
      var p := ParseInt64(text);
      if p.Some? && p.value >= 0 then At(p.value) else Unreadable
  }

  /** An answer without records hands the request's own cursor back. */
  datatype PullOutcome =
    | BadRequest
    | Nothing(cursor: Cursor)
    | Page(batchId: string, next: int, hasMore: bool, records: seq<Record>)

  /** Where a pull starts: at its cursor, and with an empty one where the path's scope has got to. */
  function Asked(st: State, path: string, cursor: Cursor): int {
    if cursor.At? then cursor.n else Num(st.committed, Scope(path))
  }

  /** The longest run of matching records from the cursor on that fits. */
  function Selected(matching: seq<Record>, start: int, limits: Limits): (r: seq<Record>)
    requires limits.maxRecords > 0
  {
    var rest := After(matching, Effective(matching, start));
    rest[..Longest(rest, limits.maxRecords, limits.maxBytes, |rest|)]
  }

  /** `path` is trimmed. */
  function PullFrom(glob: (string, string) -> bool, st: State, path: string, cursor: Cursor, limits: Limits,
                    batchId: string)
    : (State, PullOutcome)
    requires limits.maxRecords > 0
  {
    var matching := Matching(glob, st.records, path);
    var page := Selected(matching, Asked(st, path, cursor), limits);
    if page == [] then (st, Nothing(cursor))
    else
      var next := LastSeq(page);
      (st.(pending := st.pending[batchId := Batch(path, next, page)]),
       Page(batchId, next, After(matching, next) != [], page))
  }

  /** A request's limits, with zero for the default and the maximum as a ceiling. */
  function ReadLimits(maxRecords: int, maxBytes: int, timeout: int): (r: Option<Limits>)
    ensures r.Some? <==> maxRecords >= 0 && maxBytes >= 0 && timeout >= 0
    ensures r.Some? ==> 0 < r.value.maxRecords <= MAX_RECORDS && 0 < r.value.maxBytes <= MAX_BYTES
  {
    if maxRecords < 0 || maxBytes < 0 || timeout < 0 then None
    else Some(Limits(Min(if maxRecords == 0 then DEFAULT_RECORDS else maxRecords, MAX_RECORDS),
                     Min(if maxBytes == 0 then DEFAULT_BYTES else maxBytes, MAX_BYTES)))
  }

  /** `path` is trimmed, and the cursor and limits are as read. */
  function PullStep(glob: (string, string) -> bool, st: State, path: string, cursor: Cursor, limits: Option<Limits>,
                    batchId: string): (State, PullOutcome)
    requires limits.Some? ==> limits.value.maxRecords > 0
  {
    if limits.None? || cursor.Unreadable? then (st, BadRequest)
    else PullFrom(glob, st, path, cursor, limits.value, batchId)
  }

  // ---- Acknowledging ----

  datatype Verdict = Ack | Nack | Invalid

  function ReadVerdict(batchId: string, status: string, reason: string): (v: Verdict) {
    if Trim(Go, batchId) == "" then Invalid
    else
      var s := Lower(Trim(Go, status));
      if s == "ack" then Ack
      else if s == "nack" && Trim(Go, reason) != "" then Nack
      else Invalid
  }

  datatype AckOutcome = InvalidAck | BatchNotFound | BadCommittedCursor | Done(checkpointUpdated: bool)

  function CommittedBy(st: State, b: Batch, cursor: int): State {
    if cursor > Num(st.committed, Scope(b.path)) then st.(committed := st.committed[Scope(b.path) := cursor]) else st
  }

  /** The new state and what the response says before checkpoints are saved. The batch is
      gone even when the client's cursor cannot be read. */
  function AckStep(st: State, batchId: string, verdict: Verdict, claim: Cursor): (State, AckOutcome) {
    if verdict.Invalid? then (st, InvalidAck)
    else if batchId !in st.pending then (st, BatchNotFound)
    else
      var b := st.pending[batchId];
      var released := st.(pending := st.pending - {batchId});
      if verdict.Nack? then (released, Done(false))
      else match claim
        case Unreadable => (released, BadCommittedCursor)
        case Committed => (CommittedBy(released, b, b.next), Done(false))
        case At(n) => (CommittedBy(released, b, Max(b.next, n)), Done(false))
  }
}
