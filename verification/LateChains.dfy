/** A run of lines whose parts arrive one after the other: each part's record is merged into the
    buffered one, and what is left is the record of all the lines, whether that was buffered as a
    new record or continues an older one. */
module LateChains {
  import opened Prelude
  import opened Text
  import opened Normalize
  import opened PullV1
  import opened LateLines
  import opened Landings

  /** The same record, but for white space in its text. */
  ghost predicate AlikeOne(a: Record, b: Record) {
    a == b.(data := a.data) && Clean(a.data) == Clean(b.data)
  }

  ghost predicate Alike(a: seq<Record>, b: seq<Record>) {
    |a| == |b| && forall i :: 0 <= i < |a| ==> AlikeOne(a[i], b[i])
  }

  lemma CleanAppended(a: string, b: string)
    ensures Clean(Trim(Go, a + "\n" + b)) == Clean(a) + Clean(b)
  {
    CleanTrim(a + "\n" + b);
    CleanLines(a, b);
  }

  lemma FinalClean(digest: string -> string, x: Record, r: Record)
    ensures Clean(Finalize(digest, Appended(x, r)).data) == Clean(x.data) + Clean(r.data)
  {
    CleanAppended(x.data, r.data);
  }

  lemma AppendedSettled(x: Record, y: Record)
    requires Settled(x) && Settled(y)
    ensures Settled(Appended(x, y))
  {
  }

  lemma SameFramesFinal(digest: string -> string, a: Record, b: Record)
    requires Settled(a) && Frame(a) == Frame(b)
    ensures Frame(Finalize(digest, a)) == Frame(Finalize(digest, b))
  {
    FinalFrame(digest, a);
    FinalFrame(digest, b);
  }

  lemma FrameRest(x: Record, y: Record)
    requires Frame(x) == Frame(y) && x.fingerprint == y.fingerprint
    ensures x == y.(data := x.data)
  {
    assert x == Frame(x).(data := x.data, fingerprint := x.fingerprint);
    assert y == Frame(y).(data := y.data, fingerprint := y.fingerprint);
  }

  /** Records are alike when all but their texts is the same, and so is what the fingerprint sees
      of these. */
  lemma FinalAlike(digest: string -> string, a: Record, b: Record)
    requires Frame(Finalize(digest, a)) == Frame(Finalize(digest, b))
    requires Clean(Finalize(digest, a).data) == Clean(Finalize(digest, b).data)
    ensures AlikeOne(Finalize(digest, a), Finalize(digest, b))
  {
    var x, y := Finalize(digest, a), Finalize(digest, b);
    assert x.source == Frame(x).source == Frame(y).source && x.service == Frame(x).service == Frame(y).service;
    assert x.instance == Frame(x).instance == Frame(y).instance && x.severity == Frame(x).severity == Frame(y).severity;
    FingerprintOfFinal(digest, a);
    FingerprintOfFinal(digest, b);
    SameFingerprint(digest, x, y);
    FrameRest(x, y);
  }

  lemma AppendedAlike(digest: string -> string, a: Record, b: Record, r: Record)
    requires AlikeOne(a, b) && Settled(a) && Settled(r)
    ensures AlikeOne(Finalize(digest, Appended(a, r)), Finalize(digest, Appended(b, r)))
  {
    CleanAppended(a.data, r.data);
    CleanAppended(b.data, r.data);
    AppendedSettled(a, r);
    assert Frame(Appended(a, r)) == Frame(Appended(b, r));
    SameFramesFinal(digest, Appended(a, r), Appended(b, r));
    FinalAlike(digest, Appended(a, r), Appended(b, r));
  }

  /** `whole` is what the two records are together. */
  ghost predicate Together(first: Record, second: Record, whole: Record) {
    && Settled(first) && Settled(second) && Settled(whole)
    && !Blank(Go, first.original) && !Blank(Go, second.original) && !Blank(Go, whole.original)
    && whole.multiline.lineCount == first.multiline.lineCount + second.multiline.lineCount
    && whole.multiline.dropped == first.multiline.dropped + second.multiline.dropped
    && whole.offset == second.offset && whole.original == first.original + "\n" + second.original
    && whole.timestamp == Max(first.timestamp, second.timestamp)
    && whole.severity == Higher(first.severity, second.severity)
    && Clean(whole.data) == Clean(first.data) + Clean(second.data)
  }

  lemma NotBlankFirst(a: string, b: string)
    requires !Blank(Go, a)
    ensures !Blank(Go, a + b)
  {
    var i :| 0 <= i < |a| && !Space(Go, a[i]);
    assert (a + b)[i] == a[i];
  }

  lemma ThreeLines(a: string, b: string, c: string)
    ensures a + "\n" + (b + "\n" + c) == a + "\n" + b + "\n" + c
    ensures !Blank(Go, a) ==> !Blank(Go, a + "\n" + b)
  {
    if !Blank(Go, a) {
      NotBlankFirst(a, "\n" + b);
      assert a + ("\n" + b) == a + "\n" + b;
    }
  }

  lemma TextsTogether(digest: string -> string, a: seq<Line>, c: seq<Line>)
    requires |a| > 0 && |c| > 0
    ensures Clean(Finalize(digest, Merged(a + c)).data) ==
      Clean(Finalize(digest, Merged(a)).data) + Clean(Finalize(digest, Merged(c)).data)
  {
    BodiesMeet(a, c);
    CleanTrim(Merged(a).data);
    CleanTrim(Merged(c).data);
    CleanTrim(Merged(a + c).data);
    CleanLines(Merged(a).data, Merged(c).data);
  }

  lemma OriginalsTogether(a: seq<Line>, c: seq<Line>)
    requires Usable(a) && Usable(c)
    ensures !Blank(Go, Merged(a).original) && !Blank(Go, Merged(c).original) && !Blank(Go, Merged(a + c).original)
    ensures Merged(a + c).original == Merged(a).original + "\n" + Merged(c).original
  {
    OriginalsMeet(a, c);
    ThreeLines(Merged(a).original, Merged(c).original, "");
  }

  lemma RunsTogether(digest: string -> string, a: seq<Line>, c: seq<Line>)
    requires Usable(a) && Usable(c)
    ensures Together(Finalize(digest, Merged(a)), Finalize(digest, Merged(c)), Finalize(digest, Merged(a + c)))
  {
    RunSettled(a);
    RunSettled(c);
    BothUsable(a, c);
    RunSettled(a + c);
    OriginalsTogether(a, c);
    ExtremesConcat(a, c);
    DroppedConcat(a, c);
    TextsTogether(digest, a, c);
    assert (a + c)[|a + c| - 1] == c[|c| - 1];
  }

  lemma TextsOneByOne(digest: string -> string, x: Record, first: Record, mid: Record, second: Record, whole: Record)
    requires Clean(whole.data) == Clean(first.data) + Clean(second.data)
    requires mid == Finalize(digest, Appended(x, first))
    ensures Clean(Finalize(digest, Appended(mid, second)).data) == Clean(Finalize(digest, Appended(x, whole)).data)
  {
    FinalClean(digest, x, first);
    FinalClean(digest, x, whole);
    FinalClean(digest, mid, second);
    Associate(Clean(x.data), Clean(first.data), Clean(second.data));
  }

  lemma OriginalsOneByOne(x: Record, first: Record, second: Record, whole: Record)
    requires !Blank(Go, first.original) && !Blank(Go, second.original) && !Blank(Go, whole.original)
    requires whole.original == first.original + "\n" + second.original
    ensures Appended(Appended(x, first), second).original == Appended(x, whole).original
  {
    ThreeLines(x.original, first.original, second.original);
  }

  lemma AppendedOneByOne(x: Record, first: Record, second: Record, whole: Record)
    requires Settled(x) && Together(first, second, whole)
    ensures Frame(Appended(Appended(x, first), second)) == Frame(Appended(x, whole))
  {
    OriginalsOneByOne(x, first, second, whole);
  }

  lemma DedupOnly(digest: string -> string, x: Record, y: Record)
    requires Settled(x) && Settled(y) && x.multiline.enabled && y.multiline.enabled
    requires Frame(x) == Frame(y).(dedup := x.dedup)
    requires x.dedup.(windowSec := 0, strategy := "") == y.dedup.(windowSec := 0, strategy := "")
    ensures Frame(Finalize(digest, x)) == Frame(Finalize(digest, y))
  {
    FinalFrame(digest, x);
    FinalFrame(digest, y);
  }

  lemma MidSettled(digest: string -> string, r: Record)
    requires Settled(r)
    ensures Settled(Finalize(digest, r))
  {
  }

  /** Merging two records one after the other is merging what they are together, but for the text. */
  lemma FramesOneByOne(digest: string -> string, x: Record, first: Record, mid: Record, second: Record, whole: Record)
    requires Settled(x) && Together(first, second, whole) && mid == Finalize(digest, Appended(x, first))
    ensures Frame(Finalize(digest, Appended(mid, second))) == Frame(Finalize(digest, Appended(x, whole)))
  {
    AppendedSettled(x, first);
    AppendedSettled(x, whole);
    AppendedSettled(Appended(x, first), second);
    FinalFrame(digest, Appended(x, first));
    AppendedFrame(Appended(x, first), second, mid, second);
    AppendedOneByOne(x, first, second, whole);
    MidSettled(digest, Appended(x, first));
    AppendedSettled(mid, second);
    DedupOnly(digest, Appended(mid, second), Appended(x, whole));
  }

  lemma OneByOne(digest: string -> string, x: Record, first: Record, second: Record, whole: Record)
    requires Settled(x) && Together(first, second, whole)
    ensures AlikeOne(Finalize(digest, Appended(Finalize(digest, Appended(x, first)), second)),
                     Finalize(digest, Appended(x, whole)))
  {
    var mid := Finalize(digest, Appended(x, first));
    FramesOneByOne(digest, x, first, mid, second, whole);
    TextsOneByOne(digest, x, first, mid, second, whole);
    FinalAlike(digest, Appended(mid, second), Appended(x, whole));
  }

  /** What one batch leaves of a run of lines: a record of its own, numbered `n`, or the record
      that it continues. */
  function Left(digest: string -> string, onto: Option<Record>, n: int, run: seq<Line>): Record
    requires |run| > 0
  {
    var r := Finalize(digest, Merged(run));
    if onto.Some? then Finalize(digest, Appended(onto.value, r)) else r.(seqNo := n)
  }

  lemma LeftSettled(digest: string -> string, onto: Option<Record>, n: int, run: seq<Line>)
    requires Usable(run) && (onto.Some? ==> Settled(onto.value))
    ensures Settled(Left(digest, onto, n, run))
  {
    RunSettled(run);
    MidSettled(digest, Merged(run));
    if onto.Some? {
      AppendedSettled(onto.value, Finalize(digest, Merged(run)));
      MidSettled(digest, Appended(onto.value, Finalize(digest, Merged(run))));
    }
  }

  /** One part more. */
  lemma OnePart(digest: string -> string, onto: Option<Record>, n: int, run: seq<Line>, c: seq<Line>, y: Record)
    requires Usable(run) && Usable(c) && (onto.Some? ==> Settled(onto.value)) && AlikeOne(y, Left(digest, onto, n, run))
    ensures AlikeOne(Finalize(digest, Appended(y, Finalize(digest, Merged(c)))), Left(digest, onto, n, run + c))
  {
    RunSettled(run);
    RunSettled(c);
    LeftSettled(digest, onto, n, run);
    AppendedAlike(digest, y, Left(digest, onto, n, run), Finalize(digest, Merged(c)));
    if onto.Some? {
      RunsTogether(digest, run, c);
      OneByOne(digest, onto.value, Finalize(digest, Merged(run)), Finalize(digest, Merged(c)),
               Finalize(digest, Merged(run + c)));
    } else {
      LateMergeIsBatchMerge(digest, run, c, n);
    }
  }

  lemma ContinuedAt(digest: string -> string, st: State, r: Record, p: nat)
    requires Continued(st.records, r) == p
    ensures p < |st.records|
    ensures AddOne(digest, st, r).records == st.records[p := Finalize(digest, Appended(st.records[p], r))]
  {
  }

  lemma AllContinueSnoc(digest: string -> string, st: State, rs: seq<Record>, r: Record, p: nat)
    requires AllContinue(digest, st, rs + [r], p)
    ensures AllContinue(digest, st, rs, p) && Continued(AddAll(digest, st, rs).records, r) == p
    ensures AddAll(digest, st, rs + [r]) == AddOne(digest, AddAll(digest, st, rs), r)
  {
    assert (rs + [r])[..|rs|] == rs;
  }

  lemma PartUsable(lines: seq<Line>, a: nat, n: nat)
    requires Usable(lines) && a < n <= |lines|
    ensures Usable(lines[a..n])
  {
  }

  lemma UsableMore(run: seq<Line>, lines: seq<Line>, a: nat)
    requires Usable(run) && Usable(lines) && a <= |lines|
    ensures Usable(run + lines[..a])
  {
  }

  lemma ChainStep(digest: string -> string, st: State, onto: Option<Record>, n: int, run: seq<Line>,
                  c: seq<Line>, p: nat)
    requires Usable(run) && Usable(c) && (onto.Some? ==> Settled(onto.value))
    requires p < |st.records| && AlikeOne(st.records[p], Left(digest, onto, n, run))
    requires Continued(st.records, Finalize(digest, Merged(c))) == p
    ensures var after := AddOne(digest, st, Finalize(digest, Merged(c))).records;
      p < |after| && AlikeOne(after[p], Left(digest, onto, n, run + c))
  {
    ContinuedAt(digest, st, Finalize(digest, Merged(c)), p);
    OnePart(digest, onto, n, run, c, st.records[p]);
  }

  /** Once these records were added, the one at `p` is what one batch leaves of the lines. */
  ghost predicate Chained(digest: string -> string, st: State, onto: Option<Record>, n: int, run: seq<Line>,
                          rs: seq<Record>, p: nat)
    requires |run| > 0
  {
    var after := AddAll(digest, st, rs).records;
    p < |after| && AlikeOne(after[p], Left(digest, onto, n, run))
  }

  /** One record more. */
  lemma ChainNext(digest: string -> string, st: State, onto: Option<Record>, n: int, run: seq<Line>,
                  c: seq<Line>, more: seq<Line>, p: nat, front: seq<Record>, rs: seq<Record>)
    requires Usable(run) && Usable(c) && (onto.Some? ==> Settled(onto.value)) && more == run + c
    requires rs == front + [Finalize(digest, Merged(c))] && AllContinue(digest, st, rs, p)
    requires Chained(digest, st, onto, n, run, front, p)
    ensures Chained(digest, st, onto, n, more, rs, p)
  {
    AllContinueSnoc(digest, st, front, Finalize(digest, Merged(c)), p);
    ChainStep(digest, AddAll(digest, st, front), onto, n, run, c, p);
  }

  lemma FrontContinues(digest: string -> string, st: State, front: seq<Record>, r: Record,
                       rs: seq<Record>, p: nat)
    requires rs == front + [r] && AllContinue(digest, st, rs, p)
    ensures AllContinue(digest, st, front, p)
  {
    AllContinueSnoc(digest, st, front, r, p);
  }

  lemma ChainStarts(digest: string -> string, st: State, onto: Option<Record>, n: int,
                    run: seq<Line>, rs: seq<Record>, p: nat)
    requires |run| > 0 && p < |st.records| && AlikeOne(st.records[p], Left(digest, onto, n, run)) && |rs| == 0
    ensures Chained(digest, st, onto, n, run, rs, p)
  {
  }

  lemma NoLines(run: seq<Line>, lines: seq<Line>)
    ensures run + lines[..0] == run
  {
  }

  lemma AllLines(run: seq<Line>, lines: seq<Line>)
    ensures run + lines[..|lines|] == run + lines
  {
  }

  lemma MoreLines(run: seq<Line>, lines: seq<Line>, a: nat, m: nat)
    requires a <= m <= |lines|
    ensures (run + lines[..a]) + lines[a..m] == run + lines[..m]
  {
  }

  /** The first `m` lines of a batch whose records all continue the one at `p`. */
  lemma {:induction false} ChainIsWhole(digest: string -> string, st: State, onto: Option<Record>, n: int,
                                        run: seq<Line>, lines: seq<Line>, m: nat, p: nat)
    requires Usable(run) && Usable(lines) && m <= |lines| && (onto.Some? ==> Settled(onto.value))
    requires p < |st.records| && AlikeOne(st.records[p], Left(digest, onto, n, run))
    requires AllContinue(digest, st, Grouped(digest, lines, m), p)
    ensures Chained(digest, st, onto, n, run + lines[..m], Grouped(digest, lines, m), p)
    decreases m
  {
    var rs := Grouped(digest, lines, m);
    if m == 0 {
      NoLines(run, lines);
      ChainStarts(digest, st, onto, n, run, rs, p);
    } else {
      var a := Normalize.StartOf(lines, m - 1);
      var c, front := lines[a..m], Grouped(digest, lines, a);
      GroupedAt(digest, lines, m, a, c);
      FrontContinues(digest, st, front, Finalize(digest, Merged(c)), rs, p);
      ChainIsWhole(digest, st, onto, n, run, lines, a, p);
      PartUsable(lines, a, m);
      UsableMore(run, lines, a);
      MoreLines(run, lines, a, m);
      ChainNext(digest, st, onto, n, run + lines[..a], c, run + lines[..m], p, front, rs);
    }
  }

  /** The whole batch. */
  lemma ChainEnd(digest: string -> string, st: State, onto: Option<Record>, n: int, run: seq<Line>,
                 lines: seq<Line>, whole: seq<Line>, p: nat)
    requires Usable(run) && Usable(lines) && whole == run + lines && (onto.Some? ==> Settled(onto.value))
    requires p < |st.records| && AlikeOne(st.records[p], Left(digest, onto, n, run))
    requires AllContinue(digest, st, Grouped(digest, lines, |lines|), p)
    ensures Chained(digest, st, onto, n, whole, Grouped(digest, lines, |lines|), p)
  {
    AllLines(run, lines);
    ChainIsWhole(digest, st, onto, n, run, lines, |lines|, p);
  }
}
