/** A client whose cursor is from before a restart. While nothing that it asks for is buffered,
    its cursor is not reset; this is exactly when it can miss records that arrive later. */
module PullV1Restart {
  import opened Prelude
  import opened Text
  import opened Normalize
  import opened PullV1
  import opened PullV1Runs
  import opened PullV1Paging
  import opened PullV1Session
  import opened PullV1Reach

  /** Pull `k` of the session: every matching record that arrived after the first pull, up to
      where the client has got to, was received. */
  ghost predicate MissesNothing(env: Env, ws: seq<World>, es: seq<Event>, c: Client, k: nat)
    requires Follows(env, ws, es, c) && k < |c.at|
  {
    forall x :: x in Present(env, ws, es, c, k)
      && Found(env, ws, es, c, 0).st.nextSeq < x <= Reached(env, ws, es, c, k)
      ==> x in Received(env, ws, es, c, k + 1)
  }

  /** The first pull is for this path and from cursor `from`, when `n` numbers were drawn and
      `buffered` says whether a matching record is in the buffer. */
  ghost predicate Begins(env: Env, ws: seq<World>, es: seq<Event>, c: Client, path: string, from: nat, n: nat,
                         buffered: bool)
    requires Follows(env, ws, es, c) && 0 < |c.at|
  {
    && c.path == path && c.cursors[0] == At(from) && Found(env, ws, es, c, 0).st.nextSeq == n
    && (buffered <==> |Present(env, ws, es, c, 0)| > 0)
  }

  lemma ExactlyHas(m: seq<int>, start: int, cursor: int, received: seq<int>)
    requires Exactly(m, start, cursor, received)
    ensures forall x :: x in m && start < x <= cursor ==> x in received
  {
    var p: nat, q: nat :| Between(m, start, cursor, received, p, q);
    forall x | x in m && start < x <= cursor ensures x in received {
      var i :| 0 <= i < |m| && m[i] == x;
      assert received[i - p] == x;
    }
  }

  lemma AnchoredMissesNothing(env: Env, ws: seq<World>, es: seq<Event>, c: Client, k: nat)
    requires Session(env, ws, es, c) && k < |c.at| && c.cursors[0].At? && Anchored(env, ws, es, c, 0)
    ensures MissesNothing(env, ws, es, c, k)
  {
    SessionIsExact(env, ws, es, c, k);
    ExactlyHas(Present(env, ws, es, c, k), StartAt(env, ws, es, c, 0), Reached(env, ws, es, c, k),
               Received(env, ws, es, c, k + 1));
  }

  // ---- A run that misses a record ----

  /** A glob that takes every source there is: what has no source still matches no pattern. */
  function Anything(digest: string -> string): Env {
    Env(digest, (pattern: string, source: string) => true)
  }

  lemma WhatMatches(digest: string -> string, path: string)
    ensures Matches(Anything(digest).glob, "b", path)
    ensures |Patterns(path)| > 0 ==> !Matches(Anything(digest).glob, "", path)
  {
    TrimTight(Go, "b");
    TrimTight(Go, "");
    if |Patterns(path)| > 0 {
      assert Patterns(path)[0] in Patterns(path);
      assert Anything(digest).glob(Patterns(path)[0], "b");
    }
  }

  /** `n` numbers were drawn, for at most one record, of no source. */
  ghost predicate Few(st: State, n: nat) {
    st.nextSeq == n && |st.records| <= 1 && (|st.records| == 1 ==> st.records[0].source == "" && n > 0)
  }

  /** Two records of source "b" were added, numbered as given. */
  ghost predicate TwoMore(a: State, b: State, x: int, y: int) {
    var k := |a.records|;
    && |b.records| == k + 2 && b.records[..k] == a.records
    && b.records[k].source == b.records[k + 1].source == "b"
    && b.records[k].seqNo == x && b.records[k + 1].seqNo == y
  }

  /** Before the first pull: numbers are drawn for lines that the client does not ask for. */
  lemma Before(env: Env, n: nat) returns (ws: seq<World>, es: seq<Event>)
    ensures Quiet(env, ws, es) && Few(ws[|es|].st, n) && Stale(ws[|es|].st, WINDOW + 2)
  {
    if n == 0 {
      var w := QuietStart(env);
      ws, es := [w], [];
    } else {
      var r;
      ws, es, r := FirstTick(env, "", 1);
      ws, es := Drip(env, ws, es, Tick("", 1), r, 1, n - 1);
    }
  }

  lemma TwoAdded(a: State, b: State, c: State, d: State)
    requires |b.records| == |a.records| + 1 == |c.records| && |d.records| == |c.records| + 1
    requires b.records[..|a.records|] == a.records && c.records[..|b.records| - 1] == b.records[..|b.records| - 1]
    requires d.records[..|c.records|] == c.records
    requires c.records[|a.records|].source == d.records[|c.records|].source == "b"
    ensures TwoMore(a, d, c.records[|a.records|].seqNo, d.records[|c.records|].seqNo)
  {
    var k := |a.records|;
    assert d.records[..k] == d.records[..k + 1][..k];
    assert d.records[k] == d.records[..k + 1][k];
  }

  /** After it: a line that the client asks for, repeated until the cursor's number is drawn, and
      then another one. */
  lemma Later(env: Env, ws: seq<World>, es: seq<Event>, c: nat) returns (ws': seq<World>,
              es': seq<Event>)
    requires Quiet(env, ws, es) && Stale(ws[|es|].st, WINDOW + 2) && |ws[|es|].st.records| <= 1
    requires ws[|es|].st.nextSeq < c
    ensures Quiet(env, ws', es') && ws <= ws' && es <= es'
    ensures TwoMore(ws[|es|].st, ws'[|es'|].st, ws[|es|].st.nextSeq + 1, c + 1)
  {
    var a := ws[|es|].st;
    var ws1, es1, r := NextTick(env, ws, es, "b", WINDOW + 2);
    var ws2, es2 := Drip(env, ws1, es1, Tick("b", WINDOW + 2), r, a.nextSeq + 1, c - a.nextSeq - 1);
    ws', es', r := NextTick(env, ws2, es2, "b", 2 * WINDOW + 3);
    TwoAdded(a, ws1[|es1|].st, ws2[|es2|].st, ws'[|es'|].st);
  }

  lemma NothingMatches(env: Env, records: seq<Record>, path: string)
    requires |records| <= 1 && (|records| == 1 ==> !Matches(env.glob, records[0].source, path))
    ensures |Matching(env.glob, records, path)| == 0
  {
    if |records| == 1 {
      assert |records[..0]| == 0;
      assert |Matching(env.glob, records[..0], path)| == 0;
    }
  }

  lemma TwoMatch(env: Env, records: seq<Record>, front: seq<Record>, x: Record, y: Record,
                 path: string)
    requires records == front + [x] + [y] && |Matching(env.glob, front, path)| == 0
    requires Matches(env.glob, x.source, path) && Matches(env.glob, y.source, path)
    ensures Numbers(env.glob, records, path) == [x.seqNo, y.seqNo]
  {
    NumbersSnoc(env.glob, front, x, path);
    NumbersSnoc(env.glob, front + [x], y, path);
  }

  lemma {:induction false} WhatIsAsked(digest: string -> string, a: State, b: State, path: string, c: nat, n: nat)
    requires Few(a, n) && TwoMore(a, b, n + 1, c + 1) && (n == 0 || |Patterns(path)| > 0)
    ensures |Matching(Anything(digest).glob, a.records, path)| == 0
    ensures Numbers(Anything(digest).glob, b.records, path) == [n + 1, c + 1]
  {
    var k := |a.records|;
    WhatMatches(digest, path);
    NothingMatches(Anything(digest), a.records, path);
    assert b.records == a.records + [b.records[k]] + [b.records[k + 1]];
    TwoMatch(Anything(digest), b.records, a.records, b.records[k], b.records[k + 1], path);
  }

  /** The client's pull. */
  function From(path: string, from: nat, id: string): (e: Event)
    ensures ClientPull(e, path, At(from))
  {
    Pull(path, At(from), Some(Limits(1, 1)), id)
  }

  /** A pull is a step of a run. */
  lemma PullStepIs(env: Env, ws: seq<World>, es: seq<Event>, path: string, c: nat, id: string)
    returns (w': World)
    requires Quiet(env, ws, es)
    ensures Quiet(env, ws + [w'], es + [From(path, c, id)])
    ensures w' == ws[|es|].(st := ws[|es|].st.(pending := w'.st.pending))
  {
    var w := ws[|es|];
    w' := w.(st := PullStep(env.glob, w.st, path, At(c), Some(Limits(1, 1)), id).0);
    QuietSnoc(env, ws, es, From(path, c, id), w');
  }

  lemma NotReset(matching: seq<Record>, c: nat, n: nat)
    requires Seqs(matching) == [n + 1, c + 1]
    ensures Effective(matching, c) == c
  {
    assert LastSeq(matching) == Seqs(matching)[1];
  }

  lemma AfterTheFirst(m: seq<int>, page: seq<int>, p: nat, c: nat, n: nat)
    requires m == [n + 1, c + 1] && n < c && Cut(m, c, p) && page <= m[p..]
    ensures n + 1 !in page && (|page| > 0 ==> page[|page| - 1] == c + 1)
  {
    assert m[0] == n + 1 && m[1] == c + 1;
    assert p == 1;
  }

  lemma SecondOrNone(matching: seq<Record>, page: seq<int>, p: nat, c: nat, n: nat)
    requires Seqs(matching) == [n + 1, c + 1] && n < c
    requires Cut(Seqs(matching), Effective(matching, c), p) && page <= Seqs(matching)[p..]
    ensures n + 1 !in page && (|page| > 0 ==> page[|page| - 1] == c + 1)
  {
    NotReset(matching, c, n);
    AfterTheFirst(Seqs(matching), page, p, c, n);
  }

  lemma NextTurn(env: Env, w: World, e: Event, path: string, c: nat, n: nat)
    requires n < c && PullV1Index.Ordered(w.st.records, w.st.nextSeq) && ClientPull(e, path, At(c))
    requires Numbers(env.glob, w.st.records, path) == [n + 1, c + 1]
    ensures n + 1 !in Seqs(PageAt(env, w, e)) && CursorAfter(env, w, e) in {At(c), At(c + 1)}
  {
    var page := Seqs(PageAt(env, w, e));
    var p := AnswerOf(env, w, e, path, At(c));
    SecondOrNone(Matching(env.glob, w.st.records, path), page, p, c, n);
  }

  /** While nothing matches, the cursor stays; the next page is after it. */
  lemma StaleTurns(env: Env, a: World, b: World, e: Event, e': Event, path: string, c: nat, n: nat)
    requires n < c && Kept(a) && Kept(b) && ClientPull(e, path, At(c)) && ClientPull(e', path, At(c))
    requires |Matching(env.glob, a.st.records, path)| == 0
    requires Numbers(env.glob, b.st.records, path) == [n + 1, c + 1]
    ensures CursorAfter(env, a, e) == At(c) && |PageAt(env, a, e)| == 0
    ensures n + 1 !in Seqs(PageAt(env, b, e')) && CursorAfter(env, b, e') in {At(c), At(c + 1)}
  {
    var p := AnswerOf(env, a, e, path, At(c));
    NextTurn(env, b, e', path, c, n);
  }

  lemma PrefixAt<T>(a: seq<T>, b: seq<T>, i: nat)
    requires a <= b && i < |a|
    ensures b[i] == a[i]
  {
  }

  /** The run up to the first pull, which is step `i`. */
  lemma FirstPull(env: Env, path: string, c: nat, n: nat) returns (ws: seq<World>, es: seq<Event>,
                  i: nat)
    ensures Quiet(env, ws, es) && |es| == i + 1 && es[i] == From(path, c, "first") && Few(ws[i].st, n)
    ensures ws[i + 1] == ws[i].(st := ws[i].st.(pending := ws[i + 1].st.pending))
    ensures Stale(ws[i].st, WINDOW + 2)
  {
    var ws0, es0 := Before(env, n);
    i := |es0|;
    var before := ws0[i];
    var w := PullStepIs(env, ws0, es0, path, c, "first");
    ws, es := ws0 + [w], es0 + [From(path, c, "first")];
    assert ws[i] == before && ws[i + 1] == w;
  }

  /** The lines that arrive later, and the next pull, which is step `j`. */
  lemma NextPull(env: Env, ws: seq<World>, es: seq<Event>, path: string, c: nat)
    returns (ws': seq<World>, es': seq<Event>, j: nat)
    requires Quiet(env, ws, es) && Stale(ws[|es|].st, WINDOW + 2) && |ws[|es|].st.records| <= 1
    requires ws[|es|].st.nextSeq < c
    ensures Quiet(env, ws', es') && ws <= ws' && es <= es'
    ensures |es| <= j < |es'| && es'[j] == From(path, c, "next")
    ensures TwoMore(ws[|es|].st, ws'[j].st, ws[|es|].st.nextSeq + 1, c + 1)
  {
    var ws1, es1 := Later(env, ws, es, c);
    j := |es1|;
    var end := ws1[j];
    var w := PullStepIs(env, ws1, es1, path, c, "next");
    ws', es' := ws1 + [w], es1 + [From(path, c, "next")];
    assert ws'[j] == end;
  }

  /** The whole run. */
  lemma StaleRun(env: Env, path: string, c: nat, n: nat) returns (ws: seq<World>, es: seq<Event>,
                 i: nat, j: nat)
    requires n < c
    ensures Quiet(env, ws, es) && i < j < |es|
    ensures es[i] == From(path, c, "first") && es[j] == From(path, c, "next")
    ensures Few(ws[i].st, n) && TwoMore(ws[i].st, ws[j].st, n + 1, c + 1)
  {
    var ws1, es1;
    ws1, es1, i := FirstPull(env, path, c, n);
    ws, es, j := NextPull(env, ws1, es1, path, c);
    PrefixAt(ws1, ws, i);
    PrefixAt(es1, es, i);
  }

  /** What the two pulls are answered with. */
  ghost predicate Unlucky(env: Env, a: World, b: World, e: Event, e': Event, path: string, c: nat, n: nat) {
    && ClientPull(e, path, At(c)) && ClientPull(e', path, At(c)) && a.st.nextSeq == n
    && |Numbers(env.glob, a.st.records, path)| == 0
    && Numbers(env.glob, b.st.records, path) == [n + 1, c + 1]
    && |PageAt(env, a, e)| == 0 && CursorAfter(env, a, e) == At(c)
    && n + 1 !in Seqs(PageAt(env, b, e')) && CursorAfter(env, b, e') in {At(c), At(c + 1)}
  }

  lemma StaleAnswers(digest: string -> string, path: string, c: nat, n: nat)
    returns (ws: seq<World>, es: seq<Event>, i: nat, j: nat)
    requires n < c && (n == 0 || |Patterns(path)| > 0)
    ensures Run(Anything(digest), ws, es) && NeverFull(ws, es) && i < j < |es|
    ensures Unlucky(Anything(digest), ws[i], ws[j], es[i], es[j], path, c, n)
  {
    ws, es, i, j := StaleRun(Anything(digest), path, c, n);
    QuietIsRun(Anything(digest), ws, es);
    RunKeeps(Anything(digest), ws, es);
    WhatIsAsked(digest, ws[i].st, ws[j].st, path, c, n);
    StaleTurns(Anything(digest), ws[i], ws[j], es[i], es[j], path, c, n);
  }

  lemma Misses(env: Env, ws: seq<World>, es: seq<Event>, client: Client, c: nat, n: nat)
    requires Follows(env, ws, es, client) && |client.at| == 2 && n < c
    requires client.cursors[2] in {At(c), At(c + 1)} && Found(env, ws, es, client, 0).st.nextSeq == n
    requires Present(env, ws, es, client, 1) == [n + 1, c + 1] && n + 1 !in Received(env, ws, es, client, 2)
    ensures !MissesNothing(env, ws, es, client, 1)
  {
    assert Present(env, ws, es, client, 1)[0] == n + 1;
    assert n + 1 in Present(env, ws, es, client, 1);
    assert n < n + 1 <= Reached(env, ws, es, client, 1);
  }

  /** The client misses the first line it could have been sent. */
  lemma UnluckyMisses(env: Env, ws: seq<World>, es: seq<Event>, path: string, c: nat, n: nat,
                      i: nat, j: nat)
    returns (client: Client)
    requires |ws| == |es| + 1 && i < j < |es| && n < c && Unlucky(env, ws[i], ws[j], es[i], es[j], path, c, n)
    ensures Follows(env, ws, es, client) && |client.at| == 2
    ensures Begins(env, ws, es, client, path, c, n, false) && !MissesNothing(env, ws, es, client, 1)
  {
    client := TwoPulls(env, ws, es, path, At(c), i, j);
    Misses(env, ws, es, client, c, n);
  }

  /** If a session begins like this, it misses nothing. */
  ghost predicate GoesWell(env: Env, ws: seq<World>, es: seq<Event>, client: Client, k: nat, path: string, c: nat,
                           n: nat, buffered: bool) {
    Session(env, ws, es, client) && k < |client.at| && Begins(env, ws, es, client, path, c, n, buffered) ==>
      MissesNothing(env, ws, es, client, k)
  }

  /** It misses nothing in whatever run and after whatever pull. */
  ghost predicate AlwaysWell(digest: string -> string, path: string, c: nat, n: nat, buffered: bool) {
    forall env: Env, ws: seq<World>, es: seq<Event>, client: Client, k: nat
      {:trigger GoesWell(env, ws, es, client, k, path, c, n, buffered)} ::
      env.digest == digest ==> GoesWell(env, ws, es, client, k, path, c, n, buffered)
  }

  lemma AnchoredGoesWell(env: Env, ws: seq<World>, es: seq<Event>, client: Client, k: nat,
                      path: string, c: nat, n: nat, buffered: bool)
    requires c <= n || buffered
    ensures GoesWell(env, ws, es, client, k, path, c, n, buffered)
  {
    if Session(env, ws, es, client) && k < |client.at| && Begins(env, ws, es, client, path, c, n, buffered) {
      AnchoredMissesNothing(env, ws, es, client, k);
    }
  }

  lemma StaleGoesWrong(digest: string -> string, path: string, c: nat, n: nat)
    requires n < c && (n == 0 || |Patterns(path)| > 0)
    ensures !AlwaysWell(digest, path, c, n, false)
  {
    var env := Anything(digest);
    var ws, es, i, j := StaleAnswers(digest, path, c, n);
    var client := UnluckyMisses(env, ws, es, path, c, n, i, j);
    assert !GoesWell(env, ws, es, client, 1, path, c, n, false);
  }

  /** Exactly when a client that starts with a number is sure to miss nothing: its cursor was
      issued, or a matching record is buffered, which the reset compares the cursor with. (With
      no pattern in the path every record matches, so none is missing once a number was drawn.) */
  lemma AlwaysWellIff(digest: string -> string, path: string, c: nat, n: nat, buffered: bool)
    requires n == 0 || |Patterns(path)| > 0
    ensures AlwaysWell(digest, path, c, n, buffered) <==> c <= n || buffered
  {
    if c <= n || buffered {
      forall env: Env, ws: seq<World>, es: seq<Event>, client: Client, k: nat
        ensures GoesWell(env, ws, es, client, k, path, c, n, buffered)
      {
        AnchoredGoesWell(env, ws, es, client, k, path, c, n, buffered);
      }
    } else {
      StaleGoesWrong(digest, path, c, n);
    }
  }
}
