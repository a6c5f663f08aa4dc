/** Grouping of accepted log lines into records, as the version 1 pull service does before it
    buffers them. A line here is one that line-level normalisation accepted. */
module Normalize {
  import opened Prelude
  import opened Text

  datatype Severity = Severity(text: string, number: int)

  datatype Line = Line(
    body: string, original: string, timestamp: int, source: string, offset: int,
    severity: Severity, service: string, instance: string, dropped: int)

  datatype Multiline = Multiline(enabled: bool, lineCount: int, start: int, end: int, dropped: int)

  /** Times are in nanoseconds; 0 stands for the empty text a time of 0 or less is shown as. */
  datatype Dedup = Dedup(hit: bool, count: int, firstSeen: int, lastSeen: int, windowSec: int, strategy: string)

  /** `source` is also the record's source path: both are the trimmed source of the line. */
  datatype Record = Record(
    seqNo: int, source: string, timestamp: int, data: string, original: string, offset: int,
    severity: Severity, service: string, instance: string,
    multiline: Multiline, dedup: Dedup, fingerprint: string)

  /** What line-level normalisation guarantees of the lines it accepts. */
  predicate Accepted(l: Line) {
    !Blank(Go, l.body) && l.offset > 0
  }

  // ---- Continuation lines ----

  predicate StackTraceContinuation(line: string) {
    var t := Trim(Go, line);
    || HasPrefix(t, "at ") || HasPrefix(t, "...") || HasPrefix(t, "Caused by:")
    || HasPrefix(t, "Suppressed:") || HasPrefix(t, "Traceback")
  }

  predicate NpmErrorLine(line: string) {
    var t := Lower(Trim(Go, line));
    HasPrefix(t, "npm error") || HasPrefix(t, "npm err!")
  }

  predicate ErrorHeader(line: string) {
    var t := Trim(Go, line);
    Contains(t, "Exception") || Contains(t, "Error") || HasPrefix(Upper(t), "ERROR") || NpmErrorLine(t)
  }

  function LastNonEmpty(parts: seq<string>): (r: string) {
    if parts == [] then ""
    else
      var t := Trim(Go, parts[|parts| - 1]);
      if t != "" then t else LastNonEmpty(parts[..|parts| - 1])
  }

  function LastLine(body: string): (r: string) {
    LastNonEmpty(Split(body, '\n'))
  }

  /** Two instances agree unless both are known and differ. */
  predicate InstancesAgree(a: string, b: string) {
    a == "" || b == "" || a == b
  }

  /** Whether a line with text `body` continues a record whose last nonempty line is `last`. */
  predicate Continues(last: string, multiline: bool, body: string) {
    var line := Trim(Go, body);
    && line != ""
    && (|| StackTraceContinuation(line)
        || (NpmErrorLine(last) && NpmErrorLine(line))
        || ((HasPrefix(body, " ") || HasPrefix(body, "\t")) && (ErrorHeader(last) || multiline)))
  }

  // ---- The steps of the grouping loop ----

  const WINDOW_SECONDS := 10

  function FromLine(l: Line): Record {
    Record(0, l.source, l.timestamp, l.body, l.original, l.offset, l.severity, l.service, l.instance,
           Multiline(false, 1, l.offset, l.offset, l.dropped), Dedup(false, 0, 0, 0, 0, ""), "")
  }

  /** Whether a text of the given source and instance joins a record, given the record's last
      nonempty line and whether it already has several lines. */
  predicate Takes(source: string, instance: string, last: string, multiline: bool,
                  nextSource: string, nextInstance: string, body: string) {
    source == nextSource && InstancesAgree(instance, nextInstance) && Continues(last, multiline, body)
  }

  predicate ShouldAppend(current: Record, l: Line) {
    Takes(current.source, current.instance, LastLine(current.data), current.multiline.enabled,
          l.source, l.instance, l.body)
  }

  function Higher(a: Severity, b: Severity): Severity {
    if a.number < b.number then b else a
  }

  function AppendLine(current: Record, l: Line): Record {
    current.(
      multiline := current.multiline.(enabled := true, lineCount := current.multiline.lineCount + 1,
                                      end := l.offset, dropped := current.multiline.dropped + l.dropped),
      offset := l.offset,
      data := current.data + "\n" + l.body,
      original := current.original + "\n" + l.original,
      timestamp := Max(current.timestamp, l.timestamp),
      severity := Higher(current.severity, l.severity))
  }

  function KeptLine(line: string): seq<string> {
    var t := Trim(Go, line);
    if t == "" then [] else [t]
  }

  function NonEmptyTrimmed(lines: seq<string>): (r: seq<string>) {
    FlatMap(lines, KeptLine)
  }

  function FingerprintText(r: Record): string {
    Trim(Go, r.source) + "|" + Trim(Go, r.service) + "|" + Trim(Go, r.instance) + "|"
    + Trim(Go, r.severity.text) + "|" + Join(NonEmptyTrimmed(Split(r.data, '\n')), "\n")
  }

  /** `digest` is the hexadecimal SHA-256 of a text. */
  function Fingerprint(digest: string -> string, r: Record): (f: string)
    ensures f != ""
  {
    "sha256:" + digest(FingerprintText(r))
  }

  function OrElse(offset: int, default: int): int {
    if offset <= 0 then default else offset
  }

  function Finalize(digest: string -> string, r: Record): Record {
    var data := Trim(Go, r.data);
    var single := r.multiline.lineCount <= 1;
    var enabled := r.multiline.enabled && !single;
    var offset := OrElse(r.offset, ByteLen(data));
    var m := Multiline(enabled, if single then 1 else r.multiline.lineCount,
                       OrElse(r.multiline.start, offset), OrElse(r.multiline.end, offset), r.multiline.dropped);
    r.(data := data, multiline := m, offset := offset,
       fingerprint := Fingerprint(digest, r.(data := data)),
       dedup := r.dedup.(windowSec := WINDOW_SECONDS, strategy := if enabled then "multiline" else "exact"))
  }

  // ---- What the grouping means ----

  function Bodies(run: seq<Line>): (r: seq<string>)
    ensures |r| == |run|
  {
    seq(|run|, i requires 0 <= i < |run| => run[i].body)
  }

  function Originals(run: seq<Line>): (r: seq<string>)
    ensures |r| == |run|
  {
    seq(|run|, i requires 0 <= i < |run| => run[i].original)
  }

  function Dropped(run: seq<Line>): int {
    if run == [] then 0 else Dropped(run[..|run| - 1]) + run[|run| - 1].dropped
  }

  function Latest(run: seq<Line>): (t: int)
    requires run != []
  {
    if |run| == 1 then run[0].timestamp
    else Max(Latest(run[..|run| - 1]), run[|run| - 1].timestamp)
  }

  function Worst(run: seq<Line>): (s: Severity)
    requires run != []
  {
    if |run| == 1 then run[0].severity
    else Higher(Worst(run[..|run| - 1]), run[|run| - 1].severity)
  }

  /** Line `k` is the first of the highest severity. */
  ghost predicate FirstHighest(run: seq<Line>, k: nat) {
    && k < |run|
    && (forall i :: 0 <= i < k ==> run[i].severity.number < run[k].severity.number)
    && (forall i :: k <= i < |run| ==> run[i].severity.number <= run[k].severity.number)
  }

  /** A merged record carries the latest time among its lines, and the severity of the first
      line of the highest severity. */
  lemma {:induction false} Extremes(run: seq<Line>) returns (k: nat)
    requires run != []
    ensures FirstHighest(run, k) && Worst(run) == run[k].severity
    ensures forall i :: 0 <= i < |run| ==> run[i].timestamp <= Latest(run)
    ensures exists i :: 0 <= i < |run| && run[i].timestamp == Latest(run)
  {
    var n := |run| - 1;
    k := 0;
    if n > 0 {
      var before := run[..n];
      k := Extremes(before);
      assert before[k] == run[k];
      var i :| 0 <= i < n && before[i].timestamp == Latest(before);
      assert run[i] == before[i];
      assert forall j :: 0 <= j < n ==> run[j] == before[j];
      if run[k].severity.number < run[n].severity.number {
        k := n;
      }
    }
  }

  /** The record that a nonempty run of lines stands for, before it is finalised. */
  function Merged(run: seq<Line>): Record
    requires run != []
  {
    var first, last := run[0], run[|run| - 1];
    Record(0, first.source, Latest(run), Join(Bodies(run), "\n"), Join(Originals(run), "\n"), last.offset,
           Worst(run), first.service, first.instance,
           Multiline(|run| > 1, |run|, first.offset, last.offset, Dropped(run)), Dedup(false, 0, 0, 0, 0, ""), "")
  }

  /** Whether line `i` joins the run that started at line `a`, told from the lines alone. */
  predicate Joins(lines: seq<Line>, a: nat, i: nat)
    requires a < i < |lines|
  {
    Takes(lines[a].source, lines[a].instance, LastLine(lines[i - 1].body), i - a > 1,
          lines[i].source, lines[i].instance, lines[i].body)
  }

  /** The first line of the run that line `i` belongs to. */
  function StartOf(lines: seq<Line>, i: nat): (a: nat)
    requires i < |lines|
    ensures a <= i
  {
    if i == 0 then 0
    else
      var a := StartOf(lines, i - 1);
      if Joins(lines, a, i) then a else i
  }

  lemma StartOfAt(lines: seq<Line>, i: nat, a: nat, joins: bool)
    requires 0 < i < |lines| && a == StartOf(lines, i - 1) && joins == Joins(lines, a, i)
    ensures StartOf(lines, i) == if joins then a else i
  {
  }

  /** The instances are not two known ones. */
  predicate SameHost(a: string, b: string) {
    a != "" && b != "" ==> a == b
  }

  predicate SameOrigin(l: Line, m: Line) {
    l.source == m.source && SameHost(l.instance, m.instance)
  }

  predicate OneSource(lines: seq<Line>, a: nat, i: nat)
    requires a <= i < |lines|
  {
    forall j :: a <= j <= i ==> SameOrigin(lines[a], lines[j])
  }

  lemma StartOfIs(lines: seq<Line>, i: nat, a: nat)
    requires 0 < i < |lines| && a == StartOf(lines, i - 1)
    ensures StartOf(lines, i) == i || (StartOf(lines, i) == a && SameOrigin(lines[a], lines[i]))
  {
    StartOfAt(lines, i, a, Joins(lines, a, i));
  }

  lemma OneLine(lines: seq<Line>, i: nat)
    requires i < |lines|
    ensures OneSource(lines, i, i)
  {
  }

  lemma OneMoreLine(lines: seq<Line>, a: nat, i: nat)
    requires a < i < |lines| && OneSource(lines, a, i - 1) && SameOrigin(lines[a], lines[i])
    ensures OneSource(lines, a, i)
  {
  }

  /** A run's lines have one source, and no other known instance than the first. */
  lemma {:induction false} RunOfOneSource(lines: seq<Line>, i: nat)
    requires i < |lines|
    ensures OneSource(lines, StartOf(lines, i), i)
  {
    OneLine(lines, i);
    if i > 0 {
      RunOfOneSource(lines, i - 1);
      var a := StartOf(lines, i - 1);
      StartOfIs(lines, i, a);
      if SameOrigin(lines[a], lines[i]) {
        OneMoreLine(lines, a, i);
      }
    }
  }

  /** The records for the first `n` lines: one for each maximal run, in order. */
  function Grouped(digest: string -> string, lines: seq<Line>, n: nat): (r: seq<Record>)
    requires n <= |lines|
    decreases n
  {
    if n == 0 then []
    else
      var a := StartOf(lines, n - 1);
      Grouped(digest, lines, a) + [Finalize(digest, Merged(lines[a..n]))]
  }

  /** The definition of Grouped, for a run that is known. */
  lemma GroupedAt(digest: string -> string, lines: seq<Line>, n: nat, a: nat, run: seq<Line>)
    requires 0 < n <= |lines| && a == StartOf(lines, n - 1) && run == lines[a..n]
    ensures Grouped(digest, lines, n) == Grouped(digest, lines, a) + [Finalize(digest, Merged(run))]
  {
  }

  // ---- The loop computes the grouping ----

  lemma MergedOne(l: Line)
    ensures Merged([l]) == FromLine(l)
  {
    assert Bodies([l]) == [l.body] && Originals([l]) == [l.original];
    assert [l][..0] == [];
    assert Dropped([l]) == l.dropped;
  }

  lemma WorstSnoc(run: seq<Line>, l: Line)
    requires run != []
    ensures Worst(run + [l]) == Higher(Worst(run), l.severity)
    ensures Latest(run + [l]) == Max(Latest(run), l.timestamp)
  {
    assert (run + [l])[..|run|] == run;
  }

  lemma MergedSnoc(run: seq<Line>, l: Line)
    requires run != []
    ensures Merged(run + [l]) == AppendLine(Merged(run), l)
  {
    var more := run + [l];
    WorstSnoc(run, l);
    assert more[..|run|] == run;
    assert Bodies(more) == Bodies(run) + [l.body] && Originals(more) == Originals(run) + [l.original];
    JoinSnoc(Bodies(run), l.body, "\n");
    JoinSnoc(Originals(run), l.original, "\n");
  }

  lemma LastNonEmptySnoc(parts: seq<string>, p: string)
    ensures LastNonEmpty(parts + [p]) == if Blank(Go, p) then LastNonEmpty(parts) else Trim(Go, p)
  {
    BlankIsTrimmedEmpty(Go, p);
    assert (parts + [p])[..|parts|] == parts;
  }

  lemma {:induction false} LastNonEmptySuffix(a: seq<string>, b: seq<string>)
    requires exists i :: 0 <= i < |b| && !Blank(Go, b[i])
    ensures LastNonEmpty(a + b) == LastNonEmpty(b)
  {
    var n := |b| - 1;
    var front := b[..n];
    assert b == front + [b[n]] && a + b == (a + front) + [b[n]];
    LastNonEmptySnoc(a + front, b[n]);
    LastNonEmptySnoc(front, b[n]);
    if Blank(Go, b[n]) {
      var i :| 0 <= i < |b| && !Blank(Go, b[i]);
      assert front[i] == b[i];
      LastNonEmptySuffix(a, front);
    }
  }

  lemma {:induction false} SplitOfNonBlank(s: string, c: char)
    requires Space(Go, c) && !Blank(Go, s)
    ensures exists i :: 0 <= i < |Split(s, c)| && !Blank(Go, Split(s, c)[i])
  {
    var i := IndexOf(s, c);
    var parts := Split(s, c);
    if i == |s| || !Blank(Go, s[..i]) {
      assert !Blank(Go, parts[0]);
    } else {
      var rest := s[i + 1..];
      assert forall j :: 0 <= j < i ==> s[j] == s[..i][j];
      assert forall j :: i < j < |s| ==> s[j] == rest[j - (i + 1)];
      SplitOfNonBlank(rest, c);
      var k :| 0 <= k < |Split(rest, c)| && !Blank(Go, Split(rest, c)[k]);
      assert parts[k + 1] == Split(rest, c)[k];
    }
  }

  /** The last nonempty line of a joined text is that of its last part. */
  lemma LastLineOfAppended(a: string, b: string)
    requires !Blank(Go, b)
    ensures LastLine(a + "\n" + b) == LastLine(b)
  {
    SplitConcat(a, '\n', b);
    SplitOfNonBlank(b, '\n');
    LastNonEmptySuffix(Split(a, '\n'), Split(b, '\n'));
  }

  lemma LastLineOfRun(run: seq<Line>)
    requires run != [] && Accepted(run[|run| - 1])
    ensures LastLine(Merged(run).data) == LastLine(run[|run| - 1].body)
  {
    var n := |run| - 1;
    if n == 0 {
      assert Bodies(run) == [run[0].body];
    } else {
      var front, last := Bodies(run[..n]), run[n].body;
      assert Bodies(run) == front + [last];
      JoinSnoc(front, last, "\n");
      LastLineOfAppended(Join(front, "\n"), last);
    }
  }

  lemma MergedKeys(run: seq<Line>)
    requires run != []
    ensures var m := Merged(run);
      m.source == run[0].source && m.instance == run[0].instance && (m.multiline.enabled <==> |run| > 1)
  {
  }

  lemma AppendsWhenJoins(lines: seq<Line>, a: nat, i: nat)
    requires a < i < |lines| && Accepted(lines[i - 1])
    ensures ShouldAppend(Merged(lines[a..i]), lines[i]) <==> Joins(lines, a, i)
  {
    var run := lines[a..i];
    var last := run[|run| - 1];
    assert run[0] == lines[a] && last == lines[i - 1];
    MergedKeys(run);
    LastLineOfRun(run);
  }

  lemma RunGrows(lines: seq<Line>, a: nat, i: nat)
    requires a < i < |lines|
    ensures Merged(lines[a..i + 1]) == AppendLine(Merged(lines[a..i]), lines[i])
  {
    MergedSnoc(lines[a..i], lines[i]);
    assert lines[a..i + 1] == lines[a..i] + [lines[i]];
  }

  lemma RunStarts(lines: seq<Line>, i: nat)
    requires i < |lines|
    ensures Merged(lines[i..i + 1]) == FromLine(lines[i])
  {
    MergedOne(lines[i]);
    assert lines[i..i + 1] == [lines[i]];
  }

  /** One turn of the grouping loop, for either way it can go. */
  lemma GroupStep(digest: string -> string, lines: seq<Line>, i: nat)
    requires 0 < i < |lines| && Accepted(lines[i - 1])
    ensures var a := StartOf(lines, i - 1); var current := Merged(lines[a..i]);
      if ShouldAppend(current, lines[i]) then
        StartOf(lines, i) == a && AppendLine(current, lines[i]) == Merged(lines[a..i + 1])
      else
        StartOf(lines, i) == i && FromLine(lines[i]) == Merged(lines[i..i + 1])
  {
    var a := StartOf(lines, i - 1);
    AppendsWhenJoins(lines, a, i);
    RunGrows(lines, a, i);
    RunStarts(lines, i);
  }

  /** What the loop has after `i` lines: the records of all runs but the last one, and that. */
  ghost predicate Grouping(digest: string -> string, lines: seq<Line>, i: nat, current: Option<Record>,
                           result: seq<Record>)
    requires i <= |lines|
  {
    if i == 0 then current.None? && |result| == 0
    else
      var a := StartOf(lines, i - 1);
      current == Some(Merged(lines[a..i])) && result == Grouped(digest, lines, a)
  }

  lemma GroupingAppends(digest: string -> string, lines: seq<Line>, i: nat, current: Record, result: seq<Record>,
                        next: Option<Record>)
    requires 0 < i < |lines| && Accepted(lines[i - 1]) && Grouping(digest, lines, i, Some(current), result)
    requires ShouldAppend(current, lines[i]) && next == Some(AppendLine(current, lines[i]))
    ensures Grouping(digest, lines, i + 1, next, result)
  {
    GroupStep(digest, lines, i);
  }

  lemma GroupingStarts(digest: string -> string, lines: seq<Line>, i: nat, current: Record, result: seq<Record>,
                       next: Option<Record>, more: seq<Record>)
    requires 0 < i < |lines| && Accepted(lines[i - 1]) && Grouping(digest, lines, i, Some(current), result)
    requires !ShouldAppend(current, lines[i]) && next == Some(FromLine(lines[i]))
    requires more == result + [Finalize(digest, current)]
    ensures Grouping(digest, lines, i + 1, next, more)
  {
    var a: nat := StartOf(lines, i - 1);
    GroupStep(digest, lines, i);
    GroupedAt(digest, lines, i, a, lines[a..i]);
  }

  lemma GroupingFirst(digest: string -> string, lines: seq<Line>, result: seq<Record>)
    requires |lines| > 0 && |result| == 0
    ensures Grouping(digest, lines, 1, Some(FromLine(lines[0])), result)
  {
    RunStarts(lines, 0);
  }

  lemma GroupingEnds(digest: string -> string, lines: seq<Line>, current: Option<Record>, result: seq<Record>)
    requires Grouping(digest, lines, |lines|, current, result)
    ensures Grouped(digest, lines, |lines|) ==
      if current.Some? then result + [Finalize(digest, current.value)] else result
  {
    if |lines| > 0 {
      var a: nat := StartOf(lines, |lines| - 1);
      GroupedAt(digest, lines, |lines|, a, lines[a..|lines|]);
    }
  }

  /** Groups a nonempty or empty list of accepted lines. */
  method NormalizeBatch(digest: string -> string, lines: seq<Line>) returns (result: seq<Record>)
    requires forall i :: 0 <= i < |lines| ==> Accepted(lines[i])
    ensures result == Grouped(digest, lines, |lines|)
  {
    result := [];
    var current := None;
    for i := 0 to |lines|
      invariant Grouping(digest, lines, i, current, result)
    {
      var line := lines[i];
      if current == None {
        current := Some(FromLine(line));
        GroupingFirst(digest, lines, result);
        continue;
      }
      ghost var last, front := current.value, result;
      if ShouldAppend(current.value, line) {
        current := Some(AppendLine(current.value, line));
        GroupingAppends(digest, lines, i, last, front, current);
        continue;
      }
      result := result + [Finalize(digest, current.value)];
      current := Some(FromLine(line));
      GroupingStarts(digest, lines, i, last, front, current, result);
    }
    GroupingEnds(digest, lines, current, result);
    if current.Some? {
      result := result + [Finalize(digest, current.value)];
    }
  }

  // ---- Nothing is lost or counted twice ----

  function LineCount(r: Record): int {
    r.multiline.lineCount
  }

  function LineSum(rs: seq<Record>): (n: int) {
    Sum(rs, LineCount)
  }

  /** Record `r` stands for lines `a` up to `b`: same source and host throughout, counts and offsets
      taken from exactly those lines. */
  ghost predicate StandsFor(r: Record, lines: seq<Line>, a: nat, b: nat) {
    && a < b <= |lines|
    && (forall i :: a <= i < b ==> lines[i].source == r.source && SameHost(r.instance, lines[i].instance))
    && r.multiline.lineCount == b - a
    && (r.multiline.enabled <==> b - a > 1)
    && r.multiline.start == lines[a].offset
    && r.multiline.end == lines[b - 1].offset == r.offset
    && r.data == Trim(Go, Join(Bodies(lines[a..b]), "\n"))
    && r.original == Join(Originals(lines[a..b]), "\n")
  }

  /** `cuts` divides the first `n` lines into the contiguous runs the records stand for. */
  ghost predicate Partitions(cuts: seq<nat>, rs: seq<Record>, lines: seq<Line>, n: nat) {
    && |cuts| == |rs| + 1 && cuts[0] == 0 && cuts[|rs|] == n
    && forall k :: 0 <= k < |rs| ==> StandsFor(rs[k], lines, cuts[k], cuts[k + 1])
  }

  lemma FinalizeKeeps(digest: string -> string, r: Record)
    requires r.offset > 0 && r.multiline.start > 0 && r.multiline.end > 0 && r.multiline.lineCount >= 1
    requires r.multiline.enabled <==> r.multiline.lineCount > 1
    ensures var f := Finalize(digest, r);
      f.source == r.source && f.offset == r.offset && f.multiline == r.multiline
      && f.data == Trim(Go, r.data) && f.original == r.original
  {
  }

  lemma FinalizedRun(digest: string -> string, lines: seq<Line>, a: nat, n: nat)
    requires a < n <= |lines| && Accepted(lines[a]) && Accepted(lines[n - 1])
    requires OneSource(lines, a, n - 1)
    ensures StandsFor(Finalize(digest, Merged(lines[a..n])), lines, a, n)
  {
    FinalizeKeeps(digest, Merged(lines[a..n]));
  }

  lemma LastRunStands(digest: string -> string, lines: seq<Line>, n: nat)
    requires 0 < n <= |lines| && forall i :: 0 <= i < |lines| ==> Accepted(lines[i])
    ensures var a := StartOf(lines, n - 1); var rs := Grouped(digest, lines, n);
      && rs != [] && rs[..|rs| - 1] == Grouped(digest, lines, a)
      && StandsFor(rs[|rs| - 1], lines, a, n)
  {
    var a: nat := StartOf(lines, n - 1);
    var front, r := Grouped(digest, lines, a), Finalize(digest, Merged(lines[a..n]));
    assert (front + [r])[..|front|] == front;
    GroupedAt(digest, lines, n, a, lines[a..n]);
    RunOfOneSource(lines, n - 1);
    FinalizedRun(digest, lines, a, n);
  }

  lemma ExtendPartition(cuts: seq<nat>, rs: seq<Record>, r: Record, lines: seq<Line>, a: nat, n: nat)
    requires Partitions(cuts, rs, lines, a) && StandsFor(r, lines, a, n)
    ensures Partitions(cuts + [n], rs + [r], lines, n)
  {
  }

  /** The accepted lines fall into contiguous same-source runs, one per record, in order. */
  lemma {:induction false} GroupedPartitions(digest: string -> string, lines: seq<Line>, n: nat)
    returns (cuts: seq<nat>)
    requires n <= |lines| && forall i :: 0 <= i < |lines| ==> Accepted(lines[i])
    ensures Partitions(cuts, Grouped(digest, lines, n), lines, n)
    decreases n
  {
    cuts := [0];
    if n > 0 {
      var a := StartOf(lines, n - 1);
      var rs := Grouped(digest, lines, n);
      cuts := GroupedPartitions(digest, lines, a);
      LastRunStands(digest, lines, n);
      ExtendPartition(cuts, rs[..|rs| - 1], rs[|rs| - 1], lines, a, n);
      cuts := cuts + [n];
      assert rs == rs[..|rs| - 1] + [rs[|rs| - 1]];
    }
  }

  /** The line counts of the records add up to the number of lines. */
  lemma {:induction false} LinesAreCounted(digest: string -> string, lines: seq<Line>, n: nat)
    requires n <= |lines| && forall i :: 0 <= i < |lines| ==> Accepted(lines[i])
    ensures LineSum(Grouped(digest, lines, n)) == n
    decreases n
  {
    if n > 0 {
      LinesAreCounted(digest, lines, StartOf(lines, n - 1));
      LastRunStands(digest, lines, n);
    }
  }
}
