/** A continuation that arrives in a later batch: merging the record of its lines into the
    buffered one gives the record of all the lines, fingerprint included, but for white space in
    the text where the two meet. When such lines are merged is told by SplitBatches. */
module LateLines {
  import opened Prelude
  import opened Text
  import opened Normalize
  import opened PullV1

  /** The lines of a text that the fingerprint sees. */
  function Clean(s: string): seq<string> {
    NonEmptyTrimmed(Split(s, '\n'))
  }

  lemma CleanConcat(a: seq<string>, b: seq<string>)
    ensures NonEmptyTrimmed(a + b) == NonEmptyTrimmed(a) + NonEmptyTrimmed(b)
  {
    FlatMapConcat(a, b, KeptLine);
  }

  lemma CleanOne(l: string)
    ensures NonEmptyTrimmed([l]) == KeptLine(l)
  {
    FlatMapOne(l, KeptLine);
  }

  lemma CleanLines(a: string, b: string)
    ensures Clean(a + "\n" + b) == Clean(a) + Clean(b)
  {
    SplitConcat(a, '\n', b);
    CleanConcat(Split(a, '\n'), Split(b, '\n'));
  }

  // ---- White space at the ends does not matter ----

  lemma TrimDropsFirst(s: string)
    requires s != "" && Space(Go, s[0])
    ensures Trim(Go, s) == Trim(Go, s[1..])
  {
  }

  lemma {:induction false} TrimLeftSnoc(s: string, c: char)
    requires !Blank(Go, s)
    ensures TrimLeft(Go, s + [c]) == TrimLeft(Go, s) + [c]
  {
    if Space(Go, s[0]) {
      assert (s + [c])[1..] == s[1..] + [c];
      assert !Blank(Go, s[1..]) by {
        var i :| 0 <= i < |s| && !Space(Go, s[i]);
        assert s[1..][i - 1] == s[i];
      }
      TrimLeftSnoc(s[1..], c);
    }
  }

  lemma TrimDropsLast(s: string, c: char)
    requires Space(Go, c)
    ensures Trim(Go, s + [c]) == Trim(Go, s)
  {
    if Blank(Go, s) {
      BlankIsTrimmedEmpty(Go, s);
      BlankIsTrimmedEmpty(Go, s + [c]);
    } else {
      TrimLeftSnoc(s, c);
      var left := TrimLeft(Go, s);
      assert (left + [c])[..|left|] == left;
    }
  }

  lemma CleanSplitAt(s: string, i: nat)
    requires i < |s| && '\n' !in s[..i] && s[i] == '\n'
    ensures Clean(s) == NonEmptyTrimmed([s[..i]]) + Clean(s[i + 1..])
  {
    SplitAt(s, '\n', i);
    CleanConcat([s[..i]], Split(s[i + 1..], '\n'));
  }

  lemma LineDropsFirst(c: char, l: string)
    requires Space(Go, c)
    ensures NonEmptyTrimmed([[c] + l]) == NonEmptyTrimmed([l])
  {
    assert ([c] + l)[1..] == l;
    TrimDropsFirst([c] + l);
    CleanOne([c] + l);
    CleanOne(l);
  }

  lemma InnerNewline(s: string, i: nat)
    requires i + 1 < |s| && Space(Go, s[0]) && s[0] != '\n' && '\n' !in s[1..][..i] && s[i + 1] == '\n'
    ensures Clean(s) == Clean(s[1..])
  {
    var rest := s[1..];
    assert s[..i + 1] == [s[0]] + rest[..i] && s[i + 2..] == rest[i + 1..];
    CleanSplitAt(s, i + 1);
    CleanSplitAt(rest, i);
    LineDropsFirst(s[0], rest[..i]);
  }

  lemma CleanDropsFirst(s: string)
    requires s != "" && Space(Go, s[0])
    ensures Clean(s) == Clean(s[1..])
  {
    var rest := s[1..];
    if s[0] == '\n' {
      CleanSplitAt(s, 0);
      CleanOne(s[..0]);
      TrimTight(Go, s[..0]);
    } else if '\n' !in rest {
      SplitWhole(s, '\n');
      SplitWhole(rest, '\n');
      assert s == [s[0]] + rest;
      LineDropsFirst(s[0], rest);
    } else {
      InnerNewline(s, IndexOf(rest, '\n'));
    }
  }

  lemma {:induction false} CleanTrimLeft(s: string)
    ensures Clean(TrimLeft(Go, s)) == Clean(s)
  {
    if s != "" && Space(Go, s[0]) {
      CleanTrimLeft(s[1..]);
      CleanDropsFirst(s);
    }
  }

  lemma {:induction false} CleanDropsLast(s: string, c: char)
    requires Space(Go, c)
    ensures Clean(s + [c]) == Clean(s)
  {
    var i := IndexOf(s, '\n');
    var more := s + [c];
    if c == '\n' {
      assert more == s + "\n" + "";
      CleanLines(s, "");
      SplitWhole("", '\n');
      CleanOne("");
      TrimTight(Go, "");
    } else if i == |s| {
      SplitWhole(s, '\n');
      SplitWhole(more, '\n');
      CleanOne(s);
      CleanOne(more);
      TrimDropsLast(s, c);
    } else {
      assert more[..i] == s[..i] && more[i + 1..] == s[i + 1..] + [c];
      CleanSplitAt(s, i);
      CleanSplitAt(more, i);
      CleanDropsLast(s[i + 1..], c);
    }
  }

  lemma {:induction false} CleanTrimRight(s: string)
    ensures Clean(TrimRight(Go, s)) == Clean(s)
  {
    if s != "" && Space(Go, s[|s| - 1]) {
      var front := s[..|s| - 1];
      CleanTrimRight(front);
      CleanDropsLast(front, s[|s| - 1]);
      assert s == front + [s[|s| - 1]];
    }
  }

  lemma CleanTrim(s: string)
    ensures Clean(Trim(Go, s)) == Clean(s)
  {
    CleanTrimLeft(s);
    CleanTrimRight(TrimLeft(Go, s));
  }

  // ---- Two runs of lines ----

  lemma {:induction false} JoinConcat(a: seq<string>, b: seq<string>)
    requires |a| > 0 && |b| > 0
    ensures Join(a + b, "\n") == Join(a, "\n") + "\n" + Join(b, "\n")
  {
    var n := |b| - 1;
    assert a + b == (a + b[..n]) + [b[n]];
    if n == 0 {
      assert a + b[..n] == a;
      JoinSnoc(a, b[n], "\n");
    } else {
      JoinConcat(a, b[..n]);
      JoinSnoc(a + b[..n], b[n], "\n");
      assert b == b[..n] + [b[n]];
      JoinSnoc(b[..n], b[n], "\n");
    }
  }

  lemma {:induction false} ExtremesConcat(a: seq<Line>, b: seq<Line>)
    requires |a| > 0 && |b| > 0
    ensures Worst(a + b) == Higher(Worst(a), Worst(b))
    ensures Latest(a + b) == Max(Latest(a), Latest(b))
  {
    var n := |b| - 1;
    assert a + b == (a + b[..n]) + [b[n]];
    if n == 0 {
      assert a + b[..n] == a;
      WorstSnoc(a, b[n]);
    } else {
      ExtremesConcat(a, b[..n]);
      WorstSnoc(a + b[..n], b[n]);
      assert b == b[..n] + [b[n]];
      WorstSnoc(b[..n], b[n]);
    }
  }

  lemma {:induction false} DroppedConcat(a: seq<Line>, b: seq<Line>)
    ensures Dropped(a + b) == Dropped(a) + Dropped(b)
  {
    if |b| == 0 {
      assert a + b == a;
    } else {
      DroppedConcat(a, b[..|b| - 1]);
      assert (a + b)[..|a| + |b| - 1] == a + b[..|b| - 1];
    }
  }

  /** Lines as line-level normalisation accepts them; the original text is not blank either. */
  predicate Usable(run: seq<Line>) {
    |run| > 0 && forall i :: 0 <= i < |run| ==> Accepted(run[i]) && !Blank(Go, run[i].original)
  }

  lemma {:induction false} JoinNotBlank(parts: seq<string>)
    requires |parts| > 0 && !Blank(Go, parts[0])
    ensures !Blank(Go, Join(parts, "\n"))
  {
    if |parts| > 1 {
      var front := parts[..|parts| - 1];
      JoinNotBlank(front);
      var joined := Join(front, "\n");
      var i :| 0 <= i < |joined| && !Space(Go, joined[i]);
      assert Join(parts, "\n")[i] == joined[i];
    }
  }

  /** A record but for its text and fingerprint. */
  function Frame(r: Record): Record {
    r.(data := "", fingerprint := "")
  }

  lemma OriginalsMeet(a: seq<Line>, b: seq<Line>)
    requires Usable(a) && Usable(b)
    ensures !Blank(Go, Merged(a).original) && !Blank(Go, Merged(b).original)
    ensures Merged(a + b).original == Merged(a).original + "\n" + Merged(b).original
  {
    JoinNotBlank(Originals(a));
    JoinNotBlank(Originals(b));
    assert Originals(a + b) == Originals(a) + Originals(b);
    JoinConcat(Originals(a), Originals(b));
  }

  lemma BodiesMeet(a: seq<Line>, b: seq<Line>)
    requires |a| > 0 && |b| > 0
    ensures Merged(a + b).data == Merged(a).data + "\n" + Merged(b).data
  {
    assert Bodies(a + b) == Bodies(a) + Bodies(b);
    JoinConcat(Bodies(a), Bodies(b));
  }

  /** The values a finalised record keeps: what the lines of a run give. */
  predicate Settled(r: Record) {
    && r.offset > 0 && r.multiline.start > 0 && r.multiline.end > 0 && r.multiline.lineCount >= 1
    && (r.multiline.enabled <==> r.multiline.lineCount > 1)
  }

  lemma RunSettled(run: seq<Line>)
    requires |run| > 0 && Accepted(run[0]) && Accepted(run[|run| - 1])
    ensures Settled(Merged(run))
  {
  }

  lemma FinalFrame(digest: string -> string, r: Record)
    requires Settled(r)
    ensures Frame(Finalize(digest, r)) == Frame(r).(dedup := r.dedup.(
      windowSec := WINDOW_SECONDS, strategy := if r.multiline.enabled then "multiline" else "exact"))
  {
  }

  lemma AppendedFrame(x: Record, y: Record, x': Record, y': Record)
    requires Frame(x).(dedup := x'.dedup) == Frame(x') && Frame(y).(dedup := y'.dedup) == Frame(y')
    ensures Frame(Appended(x, y)).(dedup := x'.dedup) == Frame(Appended(x', y'))
  {
  }

  lemma MergedMeet(a: seq<Line>, b: seq<Line>)
    requires Usable(a) && Usable(b)
    ensures Frame(Appended(Merged(a), Merged(b))) == Frame(Merged(a + b))
  {
    OriginalsMeet(a, b);
    ExtremesConcat(a, b);
    DroppedConcat(a, b);
    assert (a + b)[0] == a[0] && (a + b)[|a + b| - 1] == b[|b| - 1];
  }

  lemma FramesFinal(digest: string -> string, late: Record, whole: Record, n: int)
    requires Settled(whole) && whole.multiline.enabled
    requires Frame(late) == Frame(whole).(seqNo := n, dedup := late.dedup)
    requires late.dedup.(windowSec := 0, strategy := "") == whole.dedup.(windowSec := 0, strategy := "")
    ensures Frame(Finalize(digest, late)) == Frame(Finalize(digest, whole)).(seqNo := n)
  {
    FinalFrame(digest, late);
    FinalFrame(digest, whole);
  }

  lemma LateFrame(digest: string -> string, x: Record, y: Record, whole: Record, n: int)
    requires Settled(x) && Settled(y) && Settled(whole) && whole.multiline.enabled
    requires Frame(Appended(x, y)) == Frame(whole) && whole.seqNo == x.seqNo
    ensures var first := Finalize(digest, x).(seqNo := n);
      Frame(Finalize(digest, Appended(first, Finalize(digest, y)))) == Frame(Finalize(digest, whole)).(seqNo := n)
  {
    var first := Finalize(digest, x).(seqNo := n);
    FinalFrame(digest, x);
    FinalFrame(digest, y);
    AppendedFrame(x.(seqNo := n), y, first, Finalize(digest, y));
    FramesFinal(digest, Appended(first, Finalize(digest, y)), whole, n);
  }

  lemma BothUsable(a: seq<Line>, b: seq<Line>)
    requires Usable(a) && Usable(b)
    ensures Usable(a + b)
  {
  }

  /** What merging makes of everything but the text. */
  lemma FramesMeet(digest: string -> string, a: seq<Line>, b: seq<Line>, n: int)
    requires Usable(a) && Usable(b)
    ensures var first := Finalize(digest, Merged(a)).(seqNo := n);
      var late := Finalize(digest, Appended(first, Finalize(digest, Merged(b))));
      Frame(late) == Frame(Finalize(digest, Merged(a + b))).(seqNo := n)
  {
    RunSettled(a);
    RunSettled(b);
    BothUsable(a, b);
    RunSettled(a + b);
    MergedMeet(a, b);
    LateFrame(digest, Merged(a), Merged(b), Merged(a + b), n);
  }

  lemma TextsMeet(digest: string -> string, a: seq<Line>, b: seq<Line>, n: int)
    requires |a| > 0 && |b| > 0
    ensures var first := Finalize(digest, Merged(a)).(seqNo := n);
      var late := Finalize(digest, Appended(first, Finalize(digest, Merged(b))));
      Clean(late.data) == Clean(Finalize(digest, Merged(a + b)).data)
  {
    var x, y := Merged(a).data, Merged(b).data;
    CleanTrim(x);
    CleanTrim(y);
    CleanTrim(x + "\n" + y);
    CleanLines(x, y);
    CleanTrim(Trim(Go, x) + "\n" + Trim(Go, y));
    CleanLines(Trim(Go, x), Trim(Go, y));
    BodiesMeet(a, b);
  }

  lemma SameFingerprint(digest: string -> string, r: Record, s: Record)
    requires r.source == s.source && r.service == s.service && r.instance == s.instance
    requires r.severity == s.severity && Clean(r.data) == Clean(s.data)
    ensures Fingerprint(digest, r) == Fingerprint(digest, s)
  {
  }

  lemma FingerprintOfFinal(digest: string -> string, r: Record)
    ensures var f := Finalize(digest, r); f.fingerprint == Fingerprint(digest, f)
  {
    var f := Finalize(digest, r);
    SameFingerprint(digest, r.(data := f.data), f);
  }

  /** Merging the record of a run of lines into a buffered one gives the record of both runs'
      lines: same counts, offsets, times, severity, original text and fingerprint. Only white
      space in the text, where the two meet, can differ. */
  lemma LateMergeIsBatchMerge(digest: string -> string, a: seq<Line>, b: seq<Line>, n: int)
    requires Usable(a) && Usable(b)
    ensures var first := Finalize(digest, Merged(a)).(seqNo := n);
      var late := Finalize(digest, Appended(first, Finalize(digest, Merged(b))));
      var whole := Finalize(digest, Merged(a + b));
      late == whole.(seqNo := n, data := late.data) && Clean(late.data) == Clean(whole.data)
  {
    var first := Finalize(digest, Merged(a)).(seqNo := n);
    var appended := Appended(first, Finalize(digest, Merged(b)));
    var late := Finalize(digest, appended);
    var whole := Finalize(digest, Merged(a + b));
    FramesMeet(digest, a, b, n);
    TextsMeet(digest, a, b, n);
    FingerprintOfFinal(digest, appended);
    FingerprintOfFinal(digest, Merged(a + b));
    SameFingerprint(digest, late, whole);
  }

  // ---- Repetitions ----

  /** A buffered record after its duplicates were counted into it, one after the other. */
  function RepeatedBy(r: Record, again: seq<Record>): Record {
    if |again| == 0 then r else Repeated(RepeatedBy(r, again[..|again| - 1]), again[|again| - 1])
  }

  /** The count is that of all occurrences, the first and last times are theirs, and nothing
      but the duplicate information changes. */
  lemma {:induction false} RepetitionsAreCounted(r: Record, again: seq<Record>)
    requires r.dedup.count == 0 && |again| > 0
    ensures var last := again[|again| - 1];
      RepeatedBy(r, again) == r.(dedup := Dedup(
        true, |again| + 1, Max(0, r.timestamp), Max(0, last.timestamp), 10,
        if r.multiline.enabled || last.multiline.enabled then "multiline" else "exact"))
  {
    if |again| > 1 {
      RepetitionsAreCounted(r, again[..|again| - 1]);
    } else {
      assert |again[..0]| == 0;
    }
  }
}
