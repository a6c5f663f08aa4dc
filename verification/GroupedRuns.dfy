/** The runs of a batch that is put together from two: the lines of the second part join the last
    run of the first one, or start a run of their own. */
module GroupedRuns {
  import opened Prelude
  import opened Normalize

  // ---- Runs of anything ----

  /** Where the run of element `i` starts, when `takes` says whether a run with this first and this
      last element, and with several or one, takes another one. */
  function StartIn<T>(xs: seq<T>, takes: (T, T, bool, T) -> bool, i: nat): (a: nat)
    requires i < |xs|
    ensures a <= i
  {
    if i == 0 then 0
    else
      var a := StartIn(xs, takes, i - 1);
      if takes(xs[a], xs[i - 1], i - a > 1, xs[i]) then a else i
  }

  /** The runs that the first `n` elements fall into. */
  function RunsIn<T>(xs: seq<T>, takes: (T, T, bool, T) -> bool, n: nat): seq<seq<T>>
    requires n <= |xs|
    decreases n
  {
    if n == 0 then []
    else
      var a := StartIn(xs, takes, n - 1);
      RunsIn(xs, takes, a) + [xs[a..n]]
  }

  lemma {:induction false} PrefixStart<T>(xs: seq<T>, more: seq<T>, takes: (T, T, bool, T) -> bool, i: nat)
    requires i < |xs| && xs <= more
    ensures StartIn(more, takes, i) == StartIn(xs, takes, i)
  {
    if i > 0 {
      PrefixStart(xs, more, takes, i - 1);
      var a := StartIn(xs, takes, i - 1);
      assert more[a] == xs[a] && more[i - 1] == xs[i - 1] && more[i] == xs[i];
    }
  }

  lemma {:induction false} ShiftedStart<T>(a: seq<T>, b: seq<T>, more: seq<T>, takes: (T, T, bool, T) -> bool, i: nat)
    requires i < |b| && more == a + b && StartIn(more, takes, |a|) == |a|
    ensures StartIn(more, takes, |a| + i) == |a| + StartIn(b, takes, i)
  {
    if i > 0 {
      ShiftedStart(a, b, more, takes, i - 1);
      var s := StartIn(b, takes, i - 1);
      assert more[|a| + s] == b[s] && more[|a| + i - 1] == b[i - 1] && more[|a| + i] == b[i];
      assert StartIn(more, takes, |a| + i - 1) == |a| + s;
    }
  }

  /** The definition, for a run that is known. */
  lemma RunsStep<T>(xs: seq<T>, takes: (T, T, bool, T) -> bool, n: nat, a: nat, run: seq<T>)
    requires 0 < n <= |xs| && a == StartIn(xs, takes, n - 1) && run == xs[a..n]
    ensures RunsIn(xs, takes, n) == RunsIn(xs, takes, a) + [run]
  {
  }

  lemma {:induction false} RunsPrefix<T>(xs: seq<T>, more: seq<T>, takes: (T, T, bool, T) -> bool, n: nat)
    requires n <= |xs| && xs <= more
    ensures RunsIn(more, takes, n) == RunsIn(xs, takes, n)
    decreases n
  {
    if n > 0 {
      var a := StartIn(xs, takes, n - 1);
      var run := xs[a..n];
      PrefixStart(xs, more, takes, n - 1);
      RunsPrefix(xs, more, takes, a);
      assert more[a..n] == run;
      RunsStep(xs, takes, n, a, run);
      RunsStep(more, takes, n, a, run);
    }
  }

  lemma ShiftedSlice<T>(a: seq<T>, b: seq<T>, more: seq<T>, s: nat, n: nat)
    requires more == a + b && s <= n <= |b|
    ensures more[|a| + s..|a| + n] == b[s..n]
  {
  }

  lemma RunsConcatNone<T>(a: seq<T>, b: seq<T>, more: seq<T>, takes: (T, T, bool, T) -> bool)
    requires more == a + b
    ensures RunsIn(more, takes, |a|) == RunsIn(a, takes, |a|) + RunsIn(b, takes, 0)
  {
    RunsPrefix(a, more, takes, |a|);
    assert |RunsIn(b, takes, 0)| == 0;
  }

  lemma RunsConcatStep<T>(a: seq<T>, b: seq<T>, more: seq<T>, takes: (T, T, bool, T) -> bool, s: nat, n: nat)
    requires more == a + b && 0 < n <= |b| && s == StartIn(b, takes, n - 1)
    requires StartIn(more, takes, |a|) == |a|
    requires RunsIn(more, takes, |a| + s) == RunsIn(a, takes, |a|) + RunsIn(b, takes, s)
    ensures RunsIn(more, takes, |a| + n) == RunsIn(a, takes, |a|) + RunsIn(b, takes, n)
  {
    var run := b[s..n];
    ShiftedStart(a, b, more, takes, n - 1);
    ShiftedSlice(a, b, more, s, n);
    RunsStep(more, takes, |a| + n, |a| + s, run);
    RunsStep(b, takes, n, s, run);
    Associate(RunsIn(a, takes, |a|), RunsIn(b, takes, s), [run]);
  }

  /** The runs of the two parts, when the second part starts one. */
  lemma {:induction false} RunsConcat<T>(a: seq<T>, b: seq<T>, more: seq<T>, takes: (T, T, bool, T) -> bool, n: nat)
    requires more == a + b && n <= |b| && (|b| > 0 ==> StartIn(more, takes, |a|) == |a|)
    ensures RunsIn(more, takes, |a| + n) == RunsIn(a, takes, |a|) + RunsIn(b, takes, n)
    decreases n
  {
    if n == 0 {
      RunsConcatNone(a, b, more, takes);
    } else {
      var s := StartIn(b, takes, n - 1);
      RunsConcat(a, b, more, takes, s);
      RunsConcatStep(a, b, more, takes, s, n);
    }
  }

  lemma FlatMapSnoc<T, U>(a: seq<T>, x: T, f: T -> seq<U>)
    ensures FlatMap(a + [x], f) == FlatMap(a, f) + f(x)
  {
    FlatMapConcat(a, [x], f);
    FlatMapOne(x, f);
  }

  /** The runs when the second part joins the last one. */
  lemma {:induction false} RunsJoined<T, U>(a: seq<T>, more: seq<T>, takes: (T, T, bool, T) -> bool, s: nat,
                                            whole: seq<T>, f: seq<T> -> seq<U>)
    requires 0 < |a| <= |more| && a <= more && s < |a| && s == StartIn(more, takes, |more| - 1)
    requires whole == more[s..|more|]
    ensures FlatMap(RunsIn(more, takes, |more|), f) == FlatMap(RunsIn(a, takes, s), f) + f(whole)
  {
    RunsStep(more, takes, |more|, s, whole);
    RunsPrefix(a, more, takes, s);
    FlatMapSnoc(RunsIn(a, takes, s), whole, f);
  }

  /** And when it starts one. */
  lemma {:induction false} RunsStarted<T, U>(a: seq<T>, b: seq<T>, more: seq<T>, takes: (T, T, bool, T) -> bool,
                                             f: seq<T> -> seq<U>)
    requires more == a + b && |b| > 0 && StartIn(more, takes, |a|) == |a|
    ensures FlatMap(RunsIn(more, takes, |more|), f) ==
      FlatMap(RunsIn(a, takes, |a|), f) + FlatMap(RunsIn(b, takes, |b|), f)
  {
    RunsConcat(a, b, more, takes, |b|);
    FlatMapConcat(RunsIn(a, takes, |a|), RunsIn(b, takes, |b|), f);
  }

  // ---- Runs of lines ----

  /** Whether a run of lines takes another line, told from its first and its last line. */
  function LineTakes(): (Line, Line, bool, Line) -> bool {
    (first: Line, last: Line, several: bool, l: Line) =>
      Takes(first.source, first.instance, LastLine(last.body), several, l.source, l.instance, l.body)
  }

  /** The starts are those of the grouping. */
  ghost predicate Starts(takes: (Line, Line, bool, Line) -> bool) {
    forall lines: seq<Line>, i: nat {:trigger StartIn(lines, takes, i)} :: i < |lines| ==>
      StartIn(lines, takes, i) == Normalize.StartOf(lines, i)
  }

  lemma StartInAt<T>(xs: seq<T>, takes: (T, T, bool, T) -> bool, i: nat, a: nat, joins: bool)
    requires 0 < i < |xs| && a == StartIn(xs, takes, i - 1) && joins == takes(xs[a], xs[i - 1], i - a > 1, xs[i])
    ensures StartIn(xs, takes, i) == if joins then a else i
  {
  }

  lemma TakesIsJoins(lines: seq<Line>, a: nat, i: nat)
    requires a < i < |lines|
    ensures LineTakes()(lines[a], lines[i - 1], i - a > 1, lines[i]) == Joins(lines, a, i)
  {
  }

  lemma SameStart(lines: seq<Line>, takes: (Line, Line, bool, Line) -> bool, i: nat, a: nat,
                  joins: bool)
    requires 0 < i < |lines| && a == StartIn(lines, takes, i - 1) == Normalize.StartOf(lines, i - 1)
    requires joins == takes(lines[a], lines[i - 1], i - a > 1, lines[i]) == Joins(lines, a, i)
    ensures StartIn(lines, takes, i) == Normalize.StartOf(lines, i)
  {
    StartOfAt(lines, i, a, joins);
    StartInAt(lines, takes, i, a, joins);
  }

  lemma {:induction false} LineStart(lines: seq<Line>, i: nat)
    requires i < |lines|
    ensures StartIn(lines, LineTakes(), i) == Normalize.StartOf(lines, i)
  {
    if i > 0 {
      LineStart(lines, i - 1);
      var a := Normalize.StartOf(lines, i - 1);
      TakesIsJoins(lines, a, i);
      SameStart(lines, LineTakes(), i, a, Joins(lines, a, i));
    }
  }

  lemma LineStarts()
    ensures Starts(LineTakes())
  {
    forall lines: seq<Line>, i: nat | i < |lines|
      ensures StartIn(lines, LineTakes(), i) == Normalize.StartOf(lines, i)
    {
      LineStart(lines, i);
    }
  }

  /** The record of a run. */
  function RecordOf(digest: string -> string): seq<Line> -> seq<Record> {
    (run: seq<Line>) => if |run| == 0 then [] else [Finalize(digest, Merged(run))]
  }

  lemma {:induction false} GroupedIn(digest: string -> string, lines: seq<Line>,
                                     takes: (Line, Line, bool, Line) -> bool, n: nat)
    requires Starts(takes) && n <= |lines|
    ensures Grouped(digest, lines, n) == FlatMap(RunsIn(lines, takes, n), RecordOf(digest))
    decreases n
  {
    if n > 0 {
      var a := StartIn(lines, takes, n - 1);
      GroupedIn(digest, lines, takes, a);
      FlatMapSnoc(RunsIn(lines, takes, a), lines[a..n], RecordOf(digest));
    }
  }

  // ---- Two parts ----

  /** The last run of the lines. */
  function LastRun(lines: seq<Line>): (run: seq<Line>)
    requires |lines| > 0
    ensures |run| > 0
  {
    lines[Normalize.StartOf(lines, |lines| - 1)..]
  }

  /** The records before the last run's. */
  function Earlier(digest: string -> string, lines: seq<Line>): seq<Record>
    requires |lines| > 0
  {
    Grouped(digest, lines, Normalize.StartOf(lines, |lines| - 1))
  }

  /** In one batch with more lines after the lines `a`, all of them would join the last run. */
  predicate AllJoin(a: seq<Line>, more: seq<Line>)
    requires 0 < |a| <= |more|
  {
    Normalize.StartOf(more, |more| - 1) == Normalize.StartOf(a, |a| - 1)
  }

  /** The first of them would start a run. */
  predicate StartsRun(a: seq<Line>, more: seq<Line>)
    requires |a| < |more|
  {
    Normalize.StartOf(more, |a|) == |a|
  }

  lemma {:induction false} GroupedLast(digest: string -> string, lines: seq<Line>)
    requires |lines| > 0
    ensures Grouped(digest, lines, |lines|) == Earlier(digest, lines) + [Finalize(digest, Merged(LastRun(lines)))]
  {
    assert lines[Normalize.StartOf(lines, |lines| - 1)..|lines|] == LastRun(lines);
  }

  lemma JoinedIn(digest: string -> string, a: seq<Line>, more: seq<Line>,
                 takes: (Line, Line, bool, Line) -> bool, s: nat, whole: seq<Line>)
    requires Starts(takes) && 0 < |a| <= |more| && a <= more && s < |a| && s == StartIn(more, takes, |more| - 1)
    requires whole == more[s..|more|]
    ensures Grouped(digest, more, |more|) == Grouped(digest, a, s) + [Finalize(digest, Merged(whole))]
  {
    RunsJoined(a, more, takes, s, whole, RecordOf(digest));
    GroupedIn(digest, a, takes, s);
    GroupedIn(digest, more, takes, |more|);
  }

  lemma Tail<T>(a: seq<T>, more: seq<T>, s: nat)
    requires a <= more && s <= |a|
    ensures a[s..] + more[|a|..] == more[s..|more|]
  {
  }

  lemma JoinedAt(digest: string -> string, a: seq<Line>, more: seq<Line>, s: nat, whole: seq<Line>)
    requires 0 < |a| <= |more| && a <= more && s < |a| && s == Normalize.StartOf(more, |more| - 1)
    requires whole == more[s..|more|]
    ensures Grouped(digest, more, |more|) == Grouped(digest, a, s) + [Finalize(digest, Merged(whole))]
  {
    LineStarts();
    JoinedIn(digest, a, more, LineTakes(), s, whole);
  }

  /** The records of one batch in which the second part joins the last run. */
  lemma GroupedJoined(digest: string -> string, a: seq<Line>, more: seq<Line>, whole: seq<Line>)
    requires 0 < |a| < |more| && a <= more && AllJoin(a, more) && whole == LastRun(a) + more[|a|..]
    ensures Grouped(digest, more, |more|) == Earlier(digest, a) + [Finalize(digest, Merged(whole))]
  {
    var s: nat := Normalize.StartOf(a, |a| - 1);
    Tail(a, more, s);
    JoinedAt(digest, a, more, s, whole);
  }

  lemma {:induction false} StartedIn(digest: string -> string, a: seq<Line>, b: seq<Line>, more: seq<Line>,
                                     takes: (Line, Line, bool, Line) -> bool)
    requires Starts(takes) && |b| > 0 && more == a + b && StartIn(more, takes, |a|) == |a|
    ensures Grouped(digest, more, |more|) == Grouped(digest, a, |a|) + Grouped(digest, b, |b|)
  {
    RunsStarted(a, b, more, takes, RecordOf(digest));
    GroupedIn(digest, a, takes, |a|);
    GroupedIn(digest, b, takes, |b|);
    GroupedIn(digest, more, takes, |more|);
  }

  /** The records of one batch in which the second part starts a run. */
  lemma GroupedStarted(digest: string -> string, a: seq<Line>, b: seq<Line>, more: seq<Line>)
    requires |b| > 0 && more == a + b && StartsRun(a, more)
    ensures Grouped(digest, more, |more|) == Grouped(digest, a, |a|) + Grouped(digest, b, |b|)
  {
    LineStarts();
    StartedIn(digest, a, b, more, LineTakes());
  }

  // ---- One line ----

  /** In one batch the line `l` would join this run. */
  predicate JoinsRun(run: seq<Line>, l: Line)
    requires |run| > 0
  {
    Takes(run[0].source, run[0].instance, LastLine(run[|run| - 1].body), |run| > 1, l.source, l.instance, l.body)
  }

  lemma OneStarts<T>(a: seq<T>, x: T, more: seq<T>, takes: (T, T, bool, T) -> bool, run: seq<T>,
                     joins: bool)
    requires |a| > 0 && more == a + [x] && run == a[StartIn(a, takes, |a| - 1)..]
    requires joins == takes(run[0], run[|run| - 1], |run| > 1, x)
    ensures StartIn(more, takes, |a|) == if joins then StartIn(a, takes, |a| - 1) else |a|
  {
    PrefixStart(a, more, takes, |a| - 1);
    assert more[|a|] == x && more[|a| - 1] == run[|run| - 1];
  }

  lemma TakesIsJoinsRun(run: seq<Line>, l: Line)
    requires |run| > 0
    ensures LineTakes()(run[0], run[|run| - 1], |run| > 1, l) == JoinsRun(run, l)
  {
  }

  lemma JoinsAt(a: seq<Line>, more: seq<Line>, s: nat, t: nat)
    requires 0 < |a| < |more| && s == Normalize.StartOf(a, |a| - 1) && t == Normalize.StartOf(more, |more| - 1)
    ensures AllJoin(a, more) <==> t == s
  {
  }

  lemma StartsAt(a: seq<Line>, more: seq<Line>, n: nat, t: nat)
    requires n == |a| < |more| && t == Normalize.StartOf(more, n)
    ensures StartsRun(a, more) <==> t == n
  {
  }

  lemma OneDecides(a: seq<Line>, more: seq<Line>, s: nat, n: nat, t: nat, joins: bool)
    requires 0 < n == |a| && |more| == n + 1 && s == Normalize.StartOf(a, n - 1)
    requires t == Normalize.StartOf(more, n) == if joins then s else n
    ensures AllJoin(a, more) <==> joins
    ensures StartsRun(a, more) <==> !joins
  {
    JoinsAt(a, more, s, t);
    StartsAt(a, more, n, t);
  }

  lemma OneBy(a: seq<Line>, l: Line, more: seq<Line>, n: nat, s: nat, t: nat, run: seq<Line>, joins: bool,
              takes: (Line, Line, bool, Line) -> bool)
    requires Starts(takes) && 0 < n == |a| && |more| == n + 1 && more == a + [l]
    requires s == Normalize.StartOf(a, n - 1) && run == a[s..] && t == if joins then s else n
    requires joins == takes(run[0], run[|run| - 1], |run| > 1, l)
    ensures AllJoin(a, more) <==> joins
    ensures StartsRun(a, more) <==> !joins
  {
    assert StartIn(a, takes, n - 1) == s;
    OneStarts(a, l, more, takes, run, joins);
    OneDecides(a, more, s, n, t, joins);
  }

  /** A single line joins or starts a run. */
  lemma OneJoinsOrStarts(a: seq<Line>, l: Line, more: seq<Line>, n: nat, s: nat, t: nat, run: seq<Line>, joins: bool)
    requires 0 < n == |a| && |more| == n + 1 && more == a + [l]
    requires s == Normalize.StartOf(a, n - 1) && run == a[s..] && t == if joins then s else n
    requires joins == JoinsRun(run, l)
    ensures AllJoin(a, more) <==> joins
    ensures StartsRun(a, more) <==> !joins
  {
    LineStarts();
    TakesIsJoinsRun(run, l);
    OneBy(a, l, more, n, s, t, run, joins, LineTakes());
  }
}
