/** One batch or two: exactly when lines that arrive in the next batch leave the buffer as one batch
    with all the lines would have. Where a run of lines ends, a batch can end too. Lines that
    would join the last run are grouped by themselves in the next batch, which trims the first of
    each run, and have to arrive within the window and find the record that the run went to. */
module SplitBatches {
  import opened Prelude
  import opened Runs
  import opened Text
  import opened Normalize
  import opened PullV1
  import opened PullV1Index
  import opened PullV1Runs
  import opened LateLines
  import opened Landings
  import opened LateChains
  import opened GroupedRuns
  import PullV1Reach

  // ---- When the late line continues the buffered record ----

  lemma {:induction false} LastOfClean(parts: seq<string>)
    ensures var clean := NonEmptyTrimmed(parts);
      LastNonEmpty(parts) == if |clean| == 0 then "" else clean[|clean| - 1]
  {
    if |parts| > 0 {
      LastOfClean(parts[..|parts| - 1]);
    }
  }

  lemma SameLastLine(a: string, b: string)
    requires Clean(a) == Clean(b)
    ensures LastLine(a) == LastLine(b)
  {
    LastOfClean(Split(a, '\n'));
    LastOfClean(Split(b, '\n'));
  }

  /** The line still continues the run when its leading white space is gone. */
  predicate SurvivesTrim(run: seq<Line>, l: Line)
    requires |run| > 0
  {
    StackTraceContinuation(l.body) || (NpmErrorLine(LastLine(run[|run| - 1].body)) && NpmErrorLine(l.body))
  }

  /** It is not older than the run, nor newer by more than the window. */
  predicate InTime(run: seq<Line>, l: Line)
    requires |run| > 0
  {
    Latest(run) <= l.timestamp <= Latest(run) + WINDOW
  }

  lemma TrimTwice(s: string)
    ensures Trim(Go, Trim(Go, s)) == Trim(Go, s)
  {
    TrimTight(Go, Trim(Go, s));
  }

  lemma TrimmedContinues(last: string, multiline: bool, body: string)
    ensures Continues(last, multiline, Trim(Go, body)) <==>
      Continues(last, multiline, body) && (StackTraceContinuation(body) || (NpmErrorLine(last) && NpmErrorLine(body)))
  {
    TrimTwice(body);
  }

  /** What the late line is compared with. */
  lemma ContinuesLate(digest: string -> string, run: seq<Line>, l: Line, n: int)
    requires Usable(run)
    ensures var first := Finalize(digest, Merged(run)).(seqNo := n);
      ShouldContinue(first, Finalize(digest, FromLine(l))) <==>
        && Latest(run) <= l.timestamp <= Latest(run) + WINDOW
        && Takes(run[0].source, run[0].instance, LastLine(run[|run| - 1].body), |run| > 1,
                 l.source, l.instance, Trim(Go, l.body))
  {
    var r := Merged(run);
    RunSettled(run);
    CleanTrim(r.data);
    SameLastLine(Trim(Go, r.data), r.data);
    LastLineOfRun(run);
  }

  /** A line that joins in one batch continues late exactly when it survives the trimming and
      is in time. */
  lemma LateIff(digest: string -> string, run: seq<Line>, l: Line, n: int)
    requires Usable(run) && JoinsRun(run, l)
    ensures ShouldContinue(Finalize(digest, Merged(run)).(seqNo := n), Finalize(digest, FromLine(l))) <==>
      InTime(run, l) && SurvivesTrim(run, l)
  {
    ContinuesLate(digest, run, l, n);
    TrimmedContinues(LastLine(run[|run| - 1].body), |run| > 1, l.body);
  }

  // ---- What the buffer holds in the end ----

  /** Every buffered record is as accepted lines make it. */
  predicate AllSettled(records: seq<Record>) {
    forall i :: 0 <= i < |records| ==> Settled(records[i])
  }

  lemma AddOneSettled(digest: string -> string, st: State, r: Record)
    requires AllSettled(st.records) && Settled(r)
    ensures AllSettled(AddOne(digest, st, r).records)
  {
    match Fate(st, r)
    case Continuation(i) =>
      AppendedSettled(st.records[i], r);
      MidSettled(digest, Appended(st.records[i], r));
    case Again(i) => assert Settled(st.records[i]);
    case Fresh =>
  }

  lemma {:induction false} AddAllSettled(digest: string -> string, st: State, rs: seq<Record>)
    requires AllSettled(st.records) && AllSettled(rs)
    ensures AllSettled(AddAll(digest, st, rs).records)
  {
    if |rs| > 0 {
      AddAllSettled(digest, st, rs[..|rs| - 1]);
      AddOneSettled(digest, AddAll(digest, st, rs[..|rs| - 1]), rs[|rs| - 1]);
    }
  }

  predicate AllAccepted(lines: seq<Line>) {
    forall i :: 0 <= i < |lines| ==> Accepted(lines[i])
  }

  lemma FinalSettled(digest: string -> string, run: seq<Line>)
    requires |run| > 0 && AllAccepted(run)
    ensures Settled(Finalize(digest, Merged(run)))
  {
    RunSettled(run);
    MidSettled(digest, Merged(run));
  }

  lemma OneMoreSettled(digest: string -> string, lines: seq<Line>, a: nat, n: nat, front: seq<Record>, rs: seq<Record>)
    requires a < n <= |lines| && AllAccepted(lines) && AllSettled(front)
    requires rs == front + [Finalize(digest, Merged(lines[a..n]))]
    ensures AllSettled(rs)
  {
    FinalSettled(digest, lines[a..n]);
  }

  lemma {:induction false} GroupedSettled(digest: string -> string, lines: seq<Line>, n: nat)
    requires AllAccepted(lines) && n <= |lines|
    ensures AllSettled(Grouped(digest, lines, n))
    decreases n
  {
    if n > 0 {
      var a: nat := Normalize.StartOf(lines, n - 1);
      GroupedSettled(digest, lines, a);
      GroupedAt(digest, lines, n, a, lines[a..n]);
      OneMoreSettled(digest, lines, a, n, Grouped(digest, lines, a), Grouped(digest, lines, n));
    }
  }

  /** Every batch keeps that, overflow included. */
  lemma AddStepSettled(digest: string -> string, st: State, lines: seq<Line>)
    requires AllSettled(st.records) && AllAccepted(lines)
    ensures AllSettled(AddStep(digest, st, lines).records)
  {
    if |lines| > 0 {
      GroupedSettled(digest, lines, |lines|);
      AddAllSettled(digest, st, Grouped(digest, lines, |lines|));
    }
  }

  /** So it holds in every reachable state. */
  lemma SettledAlways(env: Env, ws: seq<World>, es: seq<Event>)
    requires Run(env, ws, es)
    ensures forall i :: 0 <= i < |ws| ==> AllSettled(ws[i].st.records)
  {
    var next := (w: World, e: Event, w': World) => Next(env, w, e, w');
    var inv := (w: World) => AllSettled(w.st.records);
    forall w, e, w' | inv(w) && next(w, e, w') ensures inv(w') {
      match e
      case Add(lines) => AddStepSettled(env.digest, w.st, lines);
      case Pull(path, cursor, limits, id) => PullEffect(env, w.st, path, cursor, limits, id);
      case Acknowledge(id, verdict, claim) => AckEffect(w.st, id, verdict, claim);
    }
    Invariant(next, ws, es, inv);
    assert forall i :: 0 <= i < |ws| ==> inv(ws[i]);
  }

  lemma AddAllOneMore(digest: string -> string, st: State, rs: seq<Record>, r: Record)
    ensures AddAll(digest, st, rs + [r]) == AddOne(digest, AddAll(digest, st, rs), r)
  {
    assert (rs + [r])[..|rs|] == rs;
  }

  lemma {:induction false} AddAllIsFold(digest: string -> string, f: (State, Record) -> State, st: State,
                                        rs: seq<Record>)
    requires forall s, r :: f(s, r) == AddOne(digest, s, r)
    ensures AddAll(digest, st, rs) == Fold(f, st, rs)
  {
    if |rs| > 0 {
      AddAllIsFold(digest, f, st, rs[..|rs| - 1]);
    }
  }

  lemma AddAllConcat(digest: string -> string, st: State, a: seq<Record>, b: seq<Record>)
    ensures AddAll(digest, st, a + b) == AddAll(digest, AddAll(digest, st, a), b)
  {
    var f := (s: State, r: Record) => AddOne(digest, s, r);
    AddAllIsFold(digest, f, st, a + b);
    AddAllIsFold(digest, f, st, a);
    AddAllIsFold(digest, f, AddAll(digest, st, a), b);
    FoldConcat(f, st, a, b);
  }

  lemma {:induction false} AddAllLength(digest: string -> string, st: State, rs: seq<Record>)
    ensures |AddAll(digest, st, rs).records| <= |st.records| + |rs|
  {
    if |rs| > 0 {
      var front := rs[..|rs| - 1];
      AddAllLength(digest, st, front);
      PullV1Reach.AddOneLength(digest, AddAll(digest, st, front), rs[|rs| - 1]);
    }
  }

  lemma {:induction false} GroupedLength(digest: string -> string, lines: seq<Line>, n: nat)
    requires n <= |lines|
    ensures |Grouped(digest, lines, n)| <= n
    decreases n
  {
    if n > 0 {
      GroupedLength(digest, lines, Normalize.StartOf(lines, n - 1));
    }
  }

  /** Without overflow a batch is its records, one after the other. */
  lemma AddStepIs(digest: string -> string, st: State, lines: seq<Line>)
    requires |lines| > 0 && |st.records| + |lines| <= MAX_BUFFERED
    ensures AddStep(digest, st, lines) == AddAll(digest, st, Grouped(digest, lines, |lines|))
    ensures |AddStep(digest, st, lines).records| <= |st.records| + |lines|
  {
    var rs := Grouped(digest, lines, |lines|);
    AddAllLength(digest, st, rs);
    GroupedLength(digest, lines, |lines|);
  }

  /** The buffer before the last run of the lines. */
  function BeforeLast(digest: string -> string, st: State, lines: seq<Line>): State
    requires |lines| > 0
  {
    AddAll(digest, st, Earlier(digest, lines))
  }

  /** The lines, as one batch. */
  lemma FirstBatch(digest: string -> string, st: State, lines: seq<Line>)
    requires |lines| > 0 && |st.records| + |lines| <= MAX_BUFFERED
    ensures AddStep(digest, st, lines) ==
      AddOne(digest, BeforeLast(digest, st, lines), Finalize(digest, Merged(LastRun(lines))))
  {
    GroupedLast(digest, lines);
    AddStepIs(digest, st, lines);
    AddAllOneMore(digest, st, Earlier(digest, lines), Finalize(digest, Merged(LastRun(lines))));
  }

  /** Two batches. */
  lemma {:induction false} TwoBatches(digest: string -> string, st: State, a: seq<Line>, b: seq<Line>)
    requires |a| > 0 && |b| > 0 && |st.records| + |a| + |b| <= MAX_BUFFERED
    ensures AddStep(digest, AddStep(digest, st, a), b) ==
      AddAll(digest, AddStep(digest, st, a), Grouped(digest, b, |b|))
  {
    AddStepIs(digest, st, a);
    AddStepIs(digest, AddStep(digest, st, a), b);
  }

  /** One batch in which the second lines join the last run. */
  lemma JoinedBatch(digest: string -> string, st: State, a: seq<Line>, more: seq<Line>,
                    whole: seq<Line>)
    requires 0 < |a| < |more| && |st.records| + |more| <= MAX_BUFFERED && a <= more && AllJoin(a, more)
    requires whole == LastRun(a) + more[|a|..]
    ensures AddStep(digest, st, more) == AddOne(digest, BeforeLast(digest, st, a), Finalize(digest, Merged(whole)))
  {
    GroupedJoined(digest, a, more, whole);
    AddStepIs(digest, st, more);
    AddAllOneMore(digest, st, Earlier(digest, a), Finalize(digest, Merged(whole)));
  }

  lemma {:induction false} AddedTogether(digest: string -> string, st: State, a: seq<Line>, b: seq<Line>,
                                         more: seq<Line>)
    requires |a| > 0 && |b| > 0 && |st.records| + |a| + |b| <= MAX_BUFFERED && |more| == |a| + |b|
    requires Grouped(digest, more, |more|) == Grouped(digest, a, |a|) + Grouped(digest, b, |b|)
    ensures AddStep(digest, st, more) == AddStep(digest, AddStep(digest, st, a), b)
  {
    AddStepIs(digest, st, more);
    AddStepIs(digest, st, a);
    AddAllConcat(digest, st, Grouped(digest, a, |a|), Grouped(digest, b, |b|));
    TwoBatches(digest, st, a, b);
  }

  /** Where a run ends, two batches are one: the whole state is the same. */
  lemma StartedBatch(digest: string -> string, st: State, a: seq<Line>, b: seq<Line>, more: seq<Line>)
    requires |a| > 0 && |b| > 0 && |st.records| + |a| + |b| <= MAX_BUFFERED && more == a + b && StartsRun(a, more)
    ensures AddStep(digest, st, more) == AddStep(digest, AddStep(digest, st, a), b)
  {
    GroupedStarted(digest, a, b, more);
    AddedTogether(digest, st, a, b, more);
  }

  /** Lines in the next batch leave the records that `more`, which is both in the same batch, leaves. */
  ghost predicate SplitIsSame(digest: string -> string, st: State, a: seq<Line>, b: seq<Line>, more: seq<Line>) {
    Alike(AddStep(digest, AddStep(digest, st, a), b).records, AddStep(digest, st, more).records)
  }

  /** The last run of `a` goes the same way with the lines of `b` and without them, is not counted
      as a duplicate, and each record of `b` continues the record it went to. */
  predicate FollowsRun(digest: string -> string, st: State, a: seq<Line>, b: seq<Line>)
    requires |a| > 0 && |b| > 0
  {
    SameWay(digest, BeforeLast(digest, st, a), Finalize(digest, Merged(LastRun(a))),
            Finalize(digest, Merged(LastRun(a) + b)), Grouped(digest, b, |b|))
  }

  lemma AlikeCounts(a: seq<Record>, b: seq<Record>)
    requires Alike(a, b)
    ensures SameCounts(a, b)
  {
    forall q | 0 <= q < |a| ensures LineCount(a[q]) == LineCount(b[q]) && Occurrences(a[q]) == Occurrences(b[q]) {
      assert AlikeOne(a[q], b[q]);
    }
  }

  lemma AlikeButOne(rest: seq<Record>, p: nat, x: Record, y: Record)
    requires p < |rest| && AlikeOne(x, y)
    ensures Alike(rest[p := x], rest[p := y])
  {
  }

  /** When records all continued the one at `p`, which is what a single one left there. */
  lemma FollowsEnd(digest: string -> string, mid: State, rs: seq<Record>, p: nat, x: Record,
                   one: seq<Record>)
    requires p < |mid.records| && AllContinue(digest, mid, rs, p) && one == mid.records[p := x]
    requires var two := AddAll(digest, mid, rs).records;
      p < |two| && AlikeOne(two[p], x)
    ensures Alike(AddAll(digest, mid, rs).records, one)
  {
    AllContinueLeaves(digest, mid, rs, p);
    AlikeButOne(mid.records, p, AddAll(digest, mid, rs).records[p], x);
  }

  lemma FollowsAt(digest: string -> string, mid: State, onto: Option<Record>, n: int,
                  run: seq<Line>, b: seq<Line>, whole: seq<Line>, p: nat, one: seq<Record>)
    requires Usable(run) && Usable(b) && whole == run + b && (onto.Some? ==> Settled(onto.value)) && p < |mid.records|
    requires mid.records[p] == Left(digest, onto, n, run) && one == mid.records[p := Left(digest, onto, n, whole)]
    requires AllContinue(digest, mid, Grouped(digest, b, |b|), p)
    ensures Alike(AddAll(digest, mid, Grouped(digest, b, |b|)).records, one)
  {
    ChainEnd(digest, mid, onto, n, run, b, whole, p);
    FollowsEnd(digest, mid, Grouped(digest, b, |b|), p, Left(digest, onto, n, whole), one);
  }

  lemma LeftFresh(digest: string -> string, n: int, run: seq<Line>)
    requires |run| > 0
    ensures Left(digest, None, n, run) == Finalize(digest, Merged(run)).(seqNo := n)
  {
  }

  lemma LeftOnto(digest: string -> string, onto: Record, n: int, run: seq<Line>)
    requires |run| > 0
    ensures Left(digest, Some(onto), n, run) == Finalize(digest, Appended(onto, Finalize(digest, Merged(run))))
  {
  }

  lemma LastReplaced<T>(front: seq<T>, x: T, y: T)
    ensures (front + [x])[|front| := y] == front + [y]
  {
  }

  lemma Replaced<T>(xs: seq<T>, i: nat, x: T, y: T)
    requires i < |xs|
    ensures xs[i := x][i := y] == xs[i := y]
  {
  }

  lemma FreshAdds(digest: string -> string, st: State, r: Record)
    requires Fate(st, r).Fresh?
    ensures AddOne(digest, st, r).records == st.records + [r.(seqNo := st.nextSeq + 1)]
  {
  }

  lemma ContinuationEditsAt(digest: string -> string, st: State, r: Record, i: nat)
    requires Fate(st, r) == Continuation(i)
    ensures AddOne(digest, st, r).records == st.records[i := Finalize(digest, Appended(st.records[i], r))]
  {
  }

  /** Going the same way is enough: as a new record. */
  lemma FreshFollows(digest: string -> string, st: State, run: seq<Line>, b: seq<Line>,
                     lines: seq<Line>, first: Record, whole: Record)
    requires Usable(run) && Usable(b) && lines == run + b
    requires first == Finalize(digest, Merged(run)) && whole == Finalize(digest, Merged(lines))
    requires Fate(st, first).Fresh? && Fate(st, whole).Fresh?
    requires AllContinue(digest, AddOne(digest, st, first), Grouped(digest, b, |b|), |st.records|)
    ensures Alike(AddAll(digest, AddOne(digest, st, first), Grouped(digest, b, |b|)).records,
                  AddOne(digest, st, whole).records)
  {
    var n := st.nextSeq + 1;
    FreshAdds(digest, st, first);
    FreshAdds(digest, st, whole);
    LeftFresh(digest, n, run);
    LeftFresh(digest, n, lines);
    LastReplaced(st.records, first.(seqNo := n), whole.(seqNo := n));
    FollowsAt(digest, AddOne(digest, st, first), None, n, run, b, lines, |st.records|,
              AddOne(digest, st, whole).records);
  }

  /** Or continuing an older one. */
  lemma {:induction false} ContinuationFollows(digest: string -> string, st: State, run: seq<Line>, b: seq<Line>,
                                               lines: seq<Line>, i: nat, first: Record, whole: Record)
    requires Usable(run) && Usable(b) && lines == run + b
    requires first == Finalize(digest, Merged(run)) && whole == Finalize(digest, Merged(lines))
    requires i < |st.records| && Settled(st.records[i]) && Fate(st, first) == Fate(st, whole) == Continuation(i)
    requires AllContinue(digest, AddOne(digest, st, first), Grouped(digest, b, |b|), i)
    ensures Alike(AddAll(digest, AddOne(digest, st, first), Grouped(digest, b, |b|)).records,
                  AddOne(digest, st, whole).records)
  {
    var x := st.records[i];
    ContinuationEditsAt(digest, st, first, i);
    ContinuationEditsAt(digest, st, whole, i);
    LeftOnto(digest, x, 0, run);
    LeftOnto(digest, x, 0, lines);
    Replaced(st.records, i, Left(digest, Some(x), 0, run), Left(digest, Some(x), 0, lines));
    FollowsAt(digest, AddOne(digest, st, first), Some(x), 0, run, b, lines, i, AddOne(digest, st, whole).records);
  }

  lemma BothPlain(digest: string -> string, run: seq<Line>, b: seq<Line>)
    requires Usable(run) && Usable(b)
    ensures Plain(Finalize(digest, Merged(run))) && Plain(Finalize(digest, Merged(run + b)))
    ensures AllPlain(Grouped(digest, b, |b|)) && |Grouped(digest, b, |b|)| > 0
    ensures LineCount(Finalize(digest, Merged(run + b))) ==
      LineCount(Finalize(digest, Merged(run))) + LineSum(Grouped(digest, b, |b|))
  {
    GroupedPlain(digest, b, |b|);
    LinesAreCounted(digest, b, |b|);
    GroupedLast(digest, b);
  }

  lemma JoinedIff(digest: string -> string, st: State, run: seq<Line>, b: seq<Line>)
    requires Sound(st) && AllSettled(st.records) && Usable(run) && Usable(b)
    ensures var first, whole := Finalize(digest, Merged(run)), Finalize(digest, Merged(run + b));
      var rest := Grouped(digest, b, |b|);
      Alike(AddAll(digest, AddOne(digest, st, first), rest).records, AddOne(digest, st, whole).records)
      <==> SameWay(digest, st, first, whole, rest)
  {
    var first, whole := Finalize(digest, Merged(run)), Finalize(digest, Merged(run + b));
    var rest := Grouped(digest, b, |b|);
    BothPlain(digest, run, b);
    if SameWay(digest, st, first, whole, rest) {
      match Fate(st, first)
      case Continuation(i) => ContinuationFollows(digest, st, run, b, run + b, i, first, whole);
      case Fresh => FreshFollows(digest, st, run, b, run + b, first, whole);
    } else if Alike(AddAll(digest, AddOne(digest, st, first), rest).records, AddOne(digest, st, whole).records) {
      AlikeCounts(AddAll(digest, AddOne(digest, st, first), rest).records, AddOne(digest, st, whole).records);
      SameCountsSameWay(digest, st, first, whole, rest);
    }
  }

  lemma LastUsable(lines: seq<Line>)
    requires Usable(lines)
    ensures Usable(LastRun(lines))
  {
  }

  lemma BeforeLastKept(digest: string -> string, st: State, lines: seq<Line>)
    requires Sound(st) && AllSettled(st.records) && Usable(lines)
    ensures Sound(BeforeLast(digest, st, lines)) && AllSettled(BeforeLast(digest, st, lines).records)
  {
    var s := Normalize.StartOf(lines, |lines| - 1);
    GroupedPlain(digest, lines, s);
    AddAllSound(digest, st, Grouped(digest, lines, s));
    GroupedSettled(digest, lines, s);
    AddAllSettled(digest, st, Grouped(digest, lines, s));
  }

  lemma SplitInside(digest: string -> string, st: State, a: seq<Line>, b: seq<Line>, more: seq<Line>)
    requires Sound(st) && AllSettled(st.records) && Usable(a) && Usable(b)
    requires |st.records| + |a| + |b| <= MAX_BUFFERED
    requires |more| == |a| + |b| && a <= more && more[|a|..] == b && AllJoin(a, more)
    ensures SplitIsSame(digest, st, a, b, more) <==> FollowsRun(digest, st, a, b)
  {
    FirstBatch(digest, st, a);
    TwoBatches(digest, st, a, b);
    JoinedBatch(digest, st, a, more, LastRun(a) + b);
    LastUsable(a);
    BeforeLastKept(digest, st, a);
    JoinedIff(digest, BeforeLast(digest, st, a), LastRun(a), b);
  }

  lemma AlikeSelf(a: seq<Record>)
    ensures Alike(a, a)
  {
  }

  /** Exactly when a split inside a run leaves the same records, and always when it is between two
      runs. The buffer does not overflow. */
  lemma SplitIff(digest: string -> string, st: State, a: seq<Line>, b: seq<Line>, more: seq<Line>)
    requires Sound(st) && AllSettled(st.records) && Usable(a) && Usable(b) && more == a + b
    requires |st.records| + |a| + |b| <= MAX_BUFFERED
    ensures AllJoin(a, more) ==> (SplitIsSame(digest, st, a, b, more) <==> FollowsRun(digest, st, a, b))
    ensures StartsRun(a, more) ==> SplitIsSame(digest, st, a, b, more)
    ensures StartsRun(a, more) ==> AddStep(digest, st, more) == AddStep(digest, AddStep(digest, st, a), b)
  {
    if AllJoin(a, more) {
      SplitInside(digest, st, a, b, more);
    }
    if StartsRun(a, more) {
      StartedBatch(digest, st, a, b, more);
      AlikeSelf(AddStep(digest, st, more).records);
    }
  }

  // ---- One line ----

  /** The last run is buffered as a new record, with the lines and without them. */
  predicate BuffersLast(digest: string -> string, st: State, a: seq<Line>, b: seq<Line>)
    requires |a| > 0
  {
    var before := BeforeLast(digest, st, a);
    && Fate(before, Finalize(digest, Merged(LastRun(a)))).Fresh?
    && Fate(before, Finalize(digest, Merged(LastRun(a) + b))).Fresh?
  }

  lemma LastWhereLast<T>(s: seq<T>, p: T -> bool)
    requires |s| > 0
    ensures LastWhere(s, p) == |s| - 1 <==> p(s[|s| - 1])
  {
  }

  lemma OneContinues(digest: string -> string, st: State, rs: seq<Record>)
    requires |rs| == 1 && |st.records| > 0
    ensures AllContinue(digest, st, rs, |st.records| - 1) <==> ShouldContinue(st.records[|st.records| - 1], rs[0])
  {
    LastWhereLast(st.records, (r: Record) => ShouldContinue(r, rs[0]));
    assert |rs[..0]| == 0;
  }

  lemma SameWayFresh(digest: string -> string, st: State, first: Record, whole: Record,
                     rest: seq<Record>)
    requires Fate(st, first).Fresh? && Fate(st, whole).Fresh? && |rest| == 1
    ensures SameWay(digest, st, first, whole, rest) <==> ShouldContinue(first.(seqNo := st.nextSeq + 1), rest[0])
  {
    var mid := AddOne(digest, st, first);
    FreshAdds(digest, st, first);
    OneContinues(digest, mid, rest);
  }

  lemma {:induction false} OneFollowsIff(digest: string -> string, st: State, run: seq<Line>, b: seq<Line>)
    requires Usable(run) && |b| == 1 && JoinsRun(run, b[0])
    requires Fate(st, Finalize(digest, Merged(run))).Fresh? && Fate(st, Finalize(digest, Merged(run + b))).Fresh?
    ensures SameWay(digest, st, Finalize(digest, Merged(run)), Finalize(digest, Merged(run + b)), Grouped(digest, b, 1))
      <==> InTime(run, b[0]) && SurvivesTrim(run, b[0])
  {
    PullV1Reach.GroupedOne(digest, b);
    SameWayFresh(digest, st, Finalize(digest, Merged(run)), Finalize(digest, Merged(run + b)), Grouped(digest, b, 1));
    LateIff(digest, run, b[0], st.nextSeq + 1);
  }

  lemma OneLineInside(digest: string -> string, st: State, a: seq<Line>, b: seq<Line>, more: seq<Line>, run: seq<Line>)
    requires Sound(st) && AllSettled(st.records) && Usable(a) && Usable(b) && |b| == 1
    requires |st.records| + |a| < MAX_BUFFERED && BuffersLast(digest, st, a, b)
    requires |more| == |a| + 1 && a <= more && more[|a|..] == b && AllJoin(a, more)
    requires run == LastRun(a) && JoinsRun(run, b[0])
    ensures SplitIsSame(digest, st, a, b, more) <==> InTime(run, b[0]) && SurvivesTrim(run, b[0])
  {
    SplitInside(digest, st, a, b, more);
    LastUsable(a);
    OneFollowsIff(digest, BeforeLast(digest, st, a), run, b);
  }

  /** For one line that joins a run which is buffered as a new record: exactly when it is in time
      and survives the trimming. */
  lemma OneLineIff(digest: string -> string, st: State, a: seq<Line>, b: seq<Line>, l: Line, more: seq<Line>,
                   run: seq<Line>)
    requires Sound(st) && AllSettled(st.records) && Usable(a) && Usable(b) && b == [l] && more == a + [l]
    requires |st.records| + |a| < MAX_BUFFERED && BuffersLast(digest, st, a, b)
    requires run == LastRun(a) && JoinsRun(run, l)
    ensures SplitIsSame(digest, st, a, b, more) <==> InTime(run, l) && SurvivesTrim(run, l)
  {
    var s: nat := Normalize.StartOf(a, |a| - 1);
    OneJoinsOrStarts(a, l, more, |a|, s, s, run, JoinsRun(run, l));
    OneLineInside(digest, st, a, b, more, run);
  }

  // ---- An indented line ----

  /** An indented line, neither of a stack trace nor of npm, after an error header. */
  predicate IndentedAfterError(h: Line, l: Line) {
    && Accepted(h) && Accepted(l) && !Blank(Go, h.original) && !Blank(Go, l.original)
    && h.source == l.source && InstancesAgree(h.instance, l.instance)
    && ErrorHeader(LastLine(h.body)) && HasPrefix(l.body, " ")
    && !StackTraceContinuation(l.body) && !NpmErrorLine(l.body)
  }

  /** It joins the header in one batch and not in the next. */
  lemma IndentedJoins(h: Line, l: Line, run: seq<Line>)
    requires IndentedAfterError(h, l) && run == [h]
    ensures JoinsRun(run, l) && !SurvivesTrim(run, l)
  {
    BlankIsTrimmedEmpty(Go, l.body);
  }

  lemma EmptyIsFresh(st: State, r: Record)
    requires |st.records| == 0 && st.index == map[]
    ensures Fate(st, r).Fresh?
  {
  }

  lemma OnlyRun(digest: string -> string, st: State, lines: seq<Line>)
    requires |lines| == 1
    ensures LastRun(lines) == lines && BeforeLast(digest, st, lines) == st
  {
    assert |Earlier(digest, lines)| == 0;
  }

  lemma BuffersInEmpty(digest: string -> string, st: State, a: seq<Line>, b: seq<Line>)
    requires |a| == 1 && |st.records| == 0 && st.index == map[]
    ensures BuffersLast(digest, st, a, b)
  {
    OnlyRun(digest, st, a);
    EmptyIsFresh(st, Finalize(digest, Merged(LastRun(a))));
    EmptyIsFresh(st, Finalize(digest, Merged(LastRun(a) + b)));
  }

  lemma UsableOne(lines: seq<Line>)
    requires |lines| == 1 && Accepted(lines[0]) && !Blank(Go, lines[0].original)
    ensures Usable(lines)
  {
  }

  lemma IndentedUsable(a: seq<Line>, b: seq<Line>)
    requires |a| == |b| == 1 && IndentedAfterError(a[0], b[0])
    ensures Usable(a) && Usable(b)
  {
    UsableOne(a);
    UsableOne(b);
  }

  /** Two lines that would join, but for the trimming, leave different records in a fresh service. */
  lemma UnfitSplits(digest: string -> string, st: State, a: seq<Line>, b: seq<Line>, l: Line, more: seq<Line>)
    requires Init(st) && |a| == 1 && b == [l] && Usable(a) && Usable(b) && more == a + [l]
    requires JoinsRun(a, l) && !SurvivesTrim(a, l)
    ensures !SplitIsSame(digest, st, a, b, more)
  {
    OnlyRun(digest, st, a);
    BuffersInEmpty(digest, st, a, b);
    OneLineIff(digest, st, a, b, l, more, a);
  }

  /** Such as an indented line after an error header. */
  lemma IndentedLineSplits(digest: string -> string, st: State, a: seq<Line>, b: seq<Line>)
    requires Init(st) && |a| == |b| == 1 && IndentedAfterError(a[0], b[0])
    ensures !SplitIsSame(digest, st, a, b, a + b)
  {
    IndentedUsable(a, b);
    IndentedJoins(a[0], b[0], a);
    assert b == [b[0]];
    UnfitSplits(digest, st, a, b, b[0], a + b);
  }

  function OfText(body: string): Line {
    Line(body, body, 1, "app", 1, Severity("", 0), "", "", 0)
  }

  lemma ErrorIsHeader(body: string)
    requires body == "Error"
    ensures ErrorHeader(LastLine(body)) && !Blank(Go, body)
  {
    SplitWhole(body, '\n');
    TrimTight(Go, body);
    assert [body][..0] + [body] == [body];
    LastNonEmptySnoc([body][..0], body);
    assert !Space(Go, body[0]) && HasPrefix(body[0..], "Error");
  }

  lemma SpacedIsNeither(body: string, c: char)
    requires body == [' ', c] && !Space(Go, c)
    ensures !StackTraceContinuation(body) && !NpmErrorLine(body) && !Blank(Go, body) && HasPrefix(body, " ")
  {
    assert body[1] == c && body[1..] == [c];
    TrimDropsFirst(body);
    TrimTight(Go, [c]);
    assert |Trim(Go, body)| == 1;
  }

  /** Such lines. */
  lemma IndentedExample(h: Line, l: Line)
    requires h == OfText("Error") && l == OfText(" x")
    ensures IndentedAfterError(h, l)
  {
    SpacedIsNeither(l.body, 'x');
    ErrorIsHeader(h.body);
  }
}
