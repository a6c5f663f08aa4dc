/** A client of the version 1 pull service that feeds each cursor it is handed into its next
    pull of the same path. An answer without records hands the request's cursor back, so a
    client that starts with the empty cursor keeps it until its first page, and each of its
    pulls starts at what the path's scope has committed by then. As long as the buffer does not
    overflow, the client receives exactly the matching records between where its first pull
    starts and where it has got to, in order, if and only if that cursor moves over none of
    them before the first page. */
module PullV1Session {
  import opened Runs
  import opened Text
  import opened Normalize
  import opened PullV1
  import opened PullV1Index
  import opened PullV1Runs
  import opened PullV1Paging

  /** A client pulls at the steps `at` of a run, with the cursors `cursors`. */
  datatype Client = Client(path: string, at: seq<nat>, cursors: seq<Cursor>)

  predicate ClientPull(e: Event, path: string, cursor: Cursor) {
    && e.Pull? && e.path == path && e.limits.Some? && e.limits.value.maxRecords > 0
    && e.cursor == cursor && !cursor.Unreadable?
  }

  /** The page a client's pull is answered with; empty when there was nothing to send. */
  ghost function PageAt(env: Env, w: World, e: Event): seq<Record>
    requires e.Pull? && (e.limits.Some? ==> e.limits.value.maxRecords > 0)
  {
    var out := PullStep(env.glob, w.st, e.path, e.cursor, e.limits, e.batchId).1;
    if out.Page? then out.records else []
  }

  /** A number, when it is printed and read again. */
  function Reread(n: int): Cursor {
    if n >= 0 then At(n) else Unreadable
  }

  lemma PrintedIsReread(n: nat)
    requires n <= MAX_INT64
    ensures ReadCursor(FormatNat(n)) == Reread(n)
  {
    CursorRoundTrip(Go, n);
  }

  /** The cursor the answer hands to the client. */
  ghost function CursorAfter(env: Env, w: World, e: Event): Cursor
    requires e.Pull? && (e.limits.Some? ==> e.limits.value.maxRecords > 0)
  {
    match PullStep(env.glob, w.st, e.path, e.cursor, e.limits, e.batchId).1
    case Page(_, next, _, _) => Reread(next)
    case Nothing(cursor) => cursor
    case BadRequest => e.cursor
  }

  /** Pull number `k` of the client, whose answer hands it the cursor of the next one. */
  ghost predicate Pulls(env: Env, ws: seq<World>, es: seq<Event>, c: Client, k: nat)
    requires |ws| == |es| + 1 && |c.cursors| == |c.at| + 1 && k < |c.at|
  {
    && c.at[k] < |es| && (k > 0 ==> c.at[k - 1] < c.at[k])
    && ClientPull(es[c.at[k]], c.path, c.cursors[k])
    && c.cursors[k + 1] == CursorAfter(env, ws[c.at[k]], es[c.at[k]])
  }

  ghost predicate Follows(env: Env, ws: seq<World>, es: seq<Event>, c: Client) {
    && |ws| == |es| + 1 && |c.cursors| == |c.at| + 1
    && forall k {:trigger Pulls(env, ws, es, c, k)} :: 0 <= k < |c.at| ==> Pulls(env, ws, es, c, k)
  }

  /** The state that pull `k` finds. */
  ghost function Found(env: Env, ws: seq<World>, es: seq<Event>, c: Client, k: nat): World
    requires Follows(env, ws, es, c) && k < |c.at|
  {
    assert Pulls(env, ws, es, c, k);
    ws[c.at[k]]
  }

  /** The numbers received in the first `k` pulls. */
  ghost function Received(env: Env, ws: seq<World>, es: seq<Event>, c: Client, k: nat): seq<int>
    requires Follows(env, ws, es, c) && k <= |c.at|
  {
    if k == 0 then []
    else
      assert Pulls(env, ws, es, c, k - 1);
      Received(env, ws, es, c, k - 1) + Seqs(PageAt(env, ws[c.at[k - 1]], es[c.at[k - 1]]))
  }

  /** The numbers that match when pull `k` is answered. */
  ghost function Present(env: Env, ws: seq<World>, es: seq<Event>, c: Client, k: nat): seq<int>
    requires Follows(env, ws, es, c) && k < |c.at|
  {
    Numbers(env.glob, Found(env, ws, es, c, k).st.records, c.path)
  }

  /** Where a pull starts: as asked, or at the beginning when that is past every matching record. */
  ghost function StartOf(env: Env, w: World, path: string, asked: int): int {
    Effective(Matching(env.glob, w.st.records, path), asked)
  }

  /** Where pull `k` starts. */
  ghost function StartAt(env: Env, ws: seq<World>, es: seq<Event>, c: Client, k: nat): int
    requires Follows(env, ws, es, c) && k < |c.at|
  {
    var w := Found(env, ws, es, c, k);
    StartOf(env, w, c.path, Asked(w.st, c.path, c.cursors[k]))
  }

  /** Where the client has got to with pull `k`: the number it is handed, or what it was answered
      from while it holds the empty cursor. */
  ghost function Reached(env: Env, ws: seq<World>, es: seq<Event>, c: Client, k: nat): int
    requires Follows(env, ws, es, c) && k < |c.at|
  {
    Asked(Found(env, ws, es, c, k).st, c.path, c.cursors[k + 1])
  }

  /** The pull that the client's number goes back to: its last one with the empty cursor so far
      or, if it did not start with that, its first one. */
  function Origin(cursors: seq<Cursor>, k: nat): (f: nat)
    requires k < |cursors|
    ensures f <= k && (f > 0 ==> !cursors[f].At?)
    ensures forall j :: f < j <= k ==> cursors[j].At?
  {
    if k > 0 && cursors[k].At? then Origin(cursors, k - 1) else k
  }

  ghost predicate Between(m: seq<int>, start: int, cursor: int, received: seq<int>, p: nat, q: nat) {
    p <= q && Cut(m, start, p) && Cut(m, cursor, q) && received == m[p..q]
  }

  /** `received` is exactly the numbers in `m` after `start` and up to `cursor`. */
  ghost predicate Exactly(m: seq<int>, start: int, cursor: int, received: seq<int>) {
    exists p, q :: Between(m, start, cursor, received, p, q)
  }

  /** A cursor that later records cannot be mistaken for being before. */
  predicate Settled(m: seq<int>, cursor: int, nextSeq: nat) {
    cursor <= nextSeq && (m == [] || cursor <= m[|m| - 1])
  }

  lemma GrownBetween(m: seq<int>, m': seq<int>, start: int, cursor: int, received: seq<int>, p: nat, q: nat,
                     nextSeq: nat, nextSeq': nat)
    requires Between(m, start, cursor, received, p, q) && m <= m' && Rising(m', nextSeq')
    requires Settled(m, cursor, nextSeq) && start <= nextSeq <= nextSeq'
    requires forall i :: |m| <= i < |m'| ==> m'[i] > nextSeq
    ensures Between(m', start, cursor, received, p, q) && Settled(m', cursor, nextSeq')
  {
    assert m'[p..q] == m[p..q];
  }

  lemma PageExtends(m: seq<int>, start: int, cursor: int, received: seq<int>, p: nat, q: nat, page: seq<int>, max: nat)
    requires Between(m, start, cursor, received, p, q) && Rising(m, max) && page <= m[q..] && |page| > 0
    ensures var c := page[|page| - 1];
      Between(m, start, c, received + page, p, q + |page|) && Settled(m, c, max)
  {
    var k := q + |page| - 1;
    assert page[|page| - 1] == m[q..][|page| - 1] == m[k];
    CutAtMember(m, max, k);
    assert page == m[q..][..|page|];
    assert m[p..q] + page == m[p..q + |page|];
  }

  lemma EarlierIsNoCut(s: seq<int>, cursor: int, p: nat, q: nat)
    requires p < q && Cut(s, cursor, q)
    ensures !Cut(s, cursor, p)
  {
    assert s[p] <= cursor;
  }

  lemma CutIsOne(s: seq<int>, cursor: int, p: nat, q: nat)
    requires Cut(s, cursor, p) && Cut(s, cursor, q)
    ensures p == q
  {
    if p < q {
      EarlierIsNoCut(s, cursor, p, q);
    } else if q < p {
      EarlierIsNoCut(s, cursor, q, p);
    }
  }

  ghost predicate Turned(m: seq<int>, start: int, received: seq<int>, cursor: int, max: nat) {
    Exactly(m, start, cursor, received) && Settled(m, cursor, max) && start <= max
  }

  lemma AnswerIsSelected(env: Env, w: World, e: Event, path: string, cursor: Cursor)
    requires ClientPull(e, path, cursor)
    ensures var page := Selected(Matching(env.glob, w.st.records, path), Asked(w.st, path, cursor), e.limits.value);
      PageAt(env, w, e) == page && CursorAfter(env, w, e) == if |page| == 0 then cursor else Reread(LastSeq(page))
  {
  }

  lemma SelectedNumbers(matching: seq<Record>, max: nat, cursor: int, limits: Limits) returns (p: nat)
    requires Rising(Seqs(matching), max) && limits.maxRecords > 0
    ensures var selected := Selected(matching, cursor, limits); var page := Seqs(selected);
      && Cut(Seqs(matching), Effective(matching, cursor), p) && page <= Seqs(matching)[p..]
      && (|page| == 0 ==> p == |matching|)
      && (|page| > 0 ==> LastSeq(selected) == page[|page| - 1])
  {
    p := SelectedIsPage(matching, max, cursor, limits);
    var page := Selected(matching, cursor, limits);
    assert forall i :: 0 <= i < |page| ==> page[i] == matching[p..][i];
  }

  lemma AnswerOf(env: Env, w: World, e: Event, path: string, cursor: Cursor) returns (p: nat)
    requires Ordered(w.st.records, w.st.nextSeq) && ClientPull(e, path, cursor)
    ensures var matching := Matching(env.glob, w.st.records, path); var page := Seqs(PageAt(env, w, e));
      var m := Seqs(matching);
      && Rising(m, w.st.nextSeq)
      && Cut(m, Effective(matching, Asked(w.st, path, cursor)), p) && page <= m[p..] && (|page| == 0 ==> p == |m|)
      && (|page| > 0 ==> page[|page| - 1] > 0)
      && CursorAfter(env, w, e) == if |page| == 0 then cursor else Reread(page[|page| - 1])
  {
    var matching := Matching(env.glob, w.st.records, path);
    MatchingRising(env.glob, w.st.records, path, w.st.nextSeq);
    AnswerIsSelected(env, w, e, path, cursor);
    p := SelectedNumbers(matching, w.st.nextSeq, Asked(w.st, path, cursor), e.limits.value);
    var m, page := Seqs(matching), Seqs(PageAt(env, w, e));
    if |page| > 0 {
      assert page[|page| - 1] == m[p..][|page| - 1] == m[p + |page| - 1];
    }
  }

  /** One answered pull, from where the client stood. */
  lemma TurnStep(m: seq<int>, max: nat, start: int, cursor: int, received: seq<int>, page: seq<int>, p: nat, next: int)
    requires Rising(m, max) && Turned(m, start, received, cursor, max)
    requires Cut(m, cursor, p) && page <= m[p..]
    requires next == if |page| == 0 then cursor else page[|page| - 1]
    ensures Turned(m, start, received + page, next, max)
  {
    var a, b :| Between(m, start, cursor, received, a, b);
    CutIsOne(m, cursor, b, p);
    if |page| == 0 {
      assert received + page == received;
    } else {
      PageExtends(m, start, cursor, received, a, b, page, max);
    }
  }

  lemma TurnWaits(m: seq<int>, m': seq<int>, start: int, received: seq<int>, cursor: int, max: nat, max': nat)
    requires Turned(m, start, received, cursor, max) && m <= m' && Rising(m', max') && max <= max'
    requires forall i :: |m| <= i < |m'| ==> m'[i] > max
    ensures Turned(m', start, received, cursor, max')
  {
    var p, q :| Between(m, start, cursor, received, p, q);
    GrownBetween(m, m', start, cursor, received, p, q, max, max');
  }

  lemma TurnStarts(m: seq<int>, max: nat, start: int, p: nat)
    requires Rising(m, max) && Cut(m, start, p) && Settled(m, start, max)
    ensures Turned(m, start, [], start, max)
  {
    assert Between(m, start, start, [], p, p);
  }

  lemma EffectiveSettled(matching: seq<Record>, cursor: int, max: nat)
    requires Rising(Seqs(matching), max) && (cursor <= max || |matching| > 0)
    ensures Settled(Seqs(matching), Effective(matching, cursor), max)
  {
    if |matching| > 0 {
      assert Seqs(matching)[|matching| - 1] == LastSeq(matching);
    }
  }

  lemma SettledIsEffective(matching: seq<Record>, cursor: int, max: nat)
    requires Settled(Seqs(matching), cursor, max)
    ensures Effective(matching, cursor) == cursor
  {
    if |matching| > 0 {
      assert Seqs(matching)[|matching| - 1] == LastSeq(matching);
    }
  }

  lemma NumbersBetween(env: Env, a: World, b: World, path: string)
    requires Kept(a) && Kept(b) && GrewWorld(a, b)
    ensures var m, m' := Numbers(env.glob, a.st.records, path), Numbers(env.glob, b.st.records, path);
      m <= m' && Rising(m', b.st.nextSeq) && forall i :: |m| <= i < |m'| ==> m'[i] > a.st.nextSeq
  {
    NumbersGrew(env.glob, a.st.records, b.st.records, path, a.st.nextSeq);
    MatchingRising(env.glob, b.st.records, path, b.st.nextSeq);
  }

  ghost predicate TurnedAt(env: Env, w: World, path: string, start: int, received: seq<int>, cursor: int) {
    Turned(Numbers(env.glob, w.st.records, path), start, received, cursor, w.st.nextSeq)
  }

  /** TurnStep for the page after a settled cursor. */
  lemma SettledStep(matching: seq<Record>, max: nat, start: int, cursor: int, received: seq<int>, page: seq<int>,
                    p: nat, next: int)
    requires var m := Seqs(matching);
      Rising(m, max) && Turned(m, start, received, cursor, max)
      && Cut(m, Effective(matching, cursor), p) && page <= m[p..]
    requires next == if |page| == 0 then cursor else page[|page| - 1]
    ensures Turned(Seqs(matching), start, received + page, next, max)
  {
    SettledIsEffective(matching, cursor, max);
    TurnStep(Seqs(matching), max, start, cursor, received, page, p, next);
  }

  /** One pull of the session, from a state in which the client is up to date with itself. */
  lemma Turn(env: Env, w: World, e: Event, path: string, start: int, received: seq<int>, n: nat)
    requires Kept(w) && ClientPull(e, path, At(n)) && TurnedAt(env, w, path, start, received, n)
    ensures TurnedAt(env, w, path, start, received + Seqs(PageAt(env, w, e)), Asked(w.st, path, CursorAfter(env, w, e)))
  {
    var p := AnswerOf(env, w, e, path, At(n));
    SettledStep(Matching(env.glob, w.st.records, path), w.st.nextSeq, start, n, received,
                Seqs(PageAt(env, w, e)), p, Asked(w.st, path, CursorAfter(env, w, e)));
  }

  /** A start that was moved back to the beginning never meets an empty page. */
  lemma FirstStep(matching: seq<Record>, max: nat, cursor: int, page: seq<int>, p: nat, next: int)
    requires var m := Seqs(matching);
      Rising(m, max) && Cut(m, Effective(matching, cursor), p) && page <= m[p..] && (|page| == 0 ==> p == |m|)
    requires cursor <= max || |matching| > 0
    requires next == if |page| == 0 then cursor else page[|page| - 1]
    ensures Turned(Seqs(matching), Effective(matching, cursor), page, next, max)
  {
    var m := Seqs(matching);
    var start := Effective(matching, cursor);
    EffectiveSettled(matching, cursor, max);
    TurnStarts(m, max, start, p);
    if |matching| > 0 {
      assert m[|m| - 1] == LastSeq(matching);
    }
    TurnStep(m, max, start, start, [], page, p, next);
    assert [] + page == page;
  }

  lemma FirstTurn(env: Env, w: World, e: Event, path: string, cursor: Cursor)
    requires Kept(w) && ClientPull(e, path, cursor)
    requires Asked(w.st, path, cursor) <= w.st.nextSeq || |Matching(env.glob, w.st.records, path)| > 0
    ensures TurnedAt(env, w, path, StartOf(env, w, path, Asked(w.st, path, cursor)), Seqs(PageAt(env, w, e)),
                     Asked(w.st, path, CursorAfter(env, w, e)))
  {
    var p := AnswerOf(env, w, e, path, cursor);
    var matching, page, next :=
      Matching(env.glob, w.st.records, path), Seqs(PageAt(env, w, e)), Asked(w.st, path, CursorAfter(env, w, e));
    FirstStep(matching, w.st.nextSeq, Asked(w.st, path, cursor), page, p, next);
  }

  /** A pull that is answered with nothing is exact from where it starts. */
  lemma EmptyIsExact(env: Env, w: World, e: Event, path: string, cursor: Cursor)
    requires Kept(w) && ClientPull(e, path, cursor) && |PageAt(env, w, e)| == 0
    ensures CursorAfter(env, w, e) == cursor
    ensures Exactly(Numbers(env.glob, w.st.records, path), StartOf(env, w, path, Asked(w.st, path, cursor)),
                    Asked(w.st, path, cursor), [])
  {
    var p := AnswerOf(env, w, e, path, cursor);
    var m, asked := Numbers(env.glob, w.st.records, path), Asked(w.st, path, cursor);
    if |m| > 0 {
      assert m[|m| - 1] == LastSeq(Matching(env.glob, w.st.records, path));
    }
    assert Between(m, StartOf(env, w, path, asked), asked, [], p, p);
  }

  /** A later pull of the session: the buffer has grown since the previous one. */
  lemma LaterTurn(env: Env, before: World, w: World, e: Event, path: string, start: int, received: seq<int>, n: nat)
    requires Kept(before) && Kept(w) && GrewWorld(before, w) && ClientPull(e, path, At(n))
    requires TurnedAt(env, before, path, start, received, n)
    ensures TurnedAt(env, w, path, start, received + Seqs(PageAt(env, w, e)), Asked(w.st, path, CursorAfter(env, w, e)))
  {
    NumbersBetween(env, before, w, path);
    TurnWaits(Numbers(env.glob, before.st.records, path), Numbers(env.glob, w.st.records, path), start, received,
              n, before.st.nextSeq, w.st.nextSeq);
    Turn(env, w, e, path, start, received, n);
  }

  // ---- Sessions ----

  /** A client in a run without overflow. */
  ghost predicate Session(env: Env, ws: seq<World>, es: seq<Event>, c: Client) {
    Run(env, ws, es) && NeverFull(ws, es) && Follows(env, ws, es, c)
  }

  lemma {:induction false} AtRises(env: Env, ws: seq<World>, es: seq<Event>, c: Client, i: nat, j: nat)
    requires Follows(env, ws, es, c) && i <= j < |c.at|
    ensures c.at[i] <= c.at[j] < |es|
  {
    assert Pulls(env, ws, es, c, j);
    if i < j {
      AtRises(env, ws, es, c, i, j - 1);
    }
  }

  /** The buffer only grows between two pulls of a session. */
  lemma FoundGrew(env: Env, ws: seq<World>, es: seq<Event>, c: Client, i: nat, j: nat)
    requires Session(env, ws, es, c) && i <= j < |c.at|
    ensures var a, b := Found(env, ws, es, c, i), Found(env, ws, es, c, j);
      Kept(a) && Kept(b) && GrewWorld(a, b)
  {
    RunKeeps(env, ws, es);
    RunGrew(env, ws, es);
    AtRises(env, ws, es, c, i, j);
  }

  /** A client that holds a number is handed a number. */
  lemma {:induction false} NumbersStay(env: Env, ws: seq<World>, es: seq<Event>, c: Client, i: nat, j: nat)
    requires Session(env, ws, es, c) && i <= j <= |c.at| && c.cursors[i].At?
    ensures c.cursors[j].At?
  {
    if i < j {
      NumbersStay(env, ws, es, c, i, j - 1);
      assert Pulls(env, ws, es, c, j - 1);
      FoundGrew(env, ws, es, c, j - 1, j - 1);
      var p := AnswerOf(env, ws[c.at[j - 1]], es[c.at[j - 1]], c.path, c.cursors[j - 1]);
    }
  }

  /** While a client holds the empty cursor it has received nothing. */
  lemma {:induction false} IdleReceives(env: Env, ws: seq<World>, es: seq<Event>, c: Client, k: nat)
    requires Session(env, ws, es, c) && k <= |c.at| && (k > 0 ==> !c.cursors[k].At?)
    ensures |Received(env, ws, es, c, k)| == 0
  {
    if k > 0 {
      if c.cursors[k - 1].At? {
        NumbersStay(env, ws, es, c, k - 1, k);
      }
      IdleReceives(env, ws, es, c, k - 1);
      assert Pulls(env, ws, es, c, k - 1);
      FoundGrew(env, ws, es, c, k - 1, k - 1);
      var p := AnswerOf(env, ws[c.at[k - 1]], es[c.at[k - 1]], c.path, c.cursors[k - 1]);
    }
  }

  ghost predicate UpToDate(env: Env, ws: seq<World>, es: seq<Event>, c: Client, f: nat, k: nat)
    requires Follows(env, ws, es, c) && f <= k < |c.at|
  {
    TurnedAt(env, Found(env, ws, es, c, k), c.path, StartAt(env, ws, es, c, f), Received(env, ws, es, c, k + 1),
             Reached(env, ws, es, c, k))
  }

  /** Where pull `f` starts was issued, or a matching record is there to compare it with. */
  ghost predicate Anchored(env: Env, ws: seq<World>, es: seq<Event>, c: Client, f: nat)
    requires Follows(env, ws, es, c) && f < |c.at|
  {
    var w := Found(env, ws, es, c, f);
    Asked(w.st, c.path, c.cursors[f]) <= w.st.nextSeq || |Present(env, ws, es, c, f)| > 0
  }

  lemma ReceivesFirst(env: Env, ws: seq<World>, es: seq<Event>, c: Client, f: nat)
    requires Follows(env, ws, es, c) && f < |c.at| && Pulls(env, ws, es, c, f) && |Received(env, ws, es, c, f)| == 0
    ensures Received(env, ws, es, c, f + 1) == Seqs(PageAt(env, ws[c.at[f]], es[c.at[f]]))
  {
  }

  lemma StartsUpToDate(env: Env, ws: seq<World>, es: seq<Event>, c: Client, f: nat)
    requires Follows(env, ws, es, c) && f < |c.at| && Kept(Found(env, ws, es, c, f)) && Anchored(env, ws, es, c, f)
    requires |Received(env, ws, es, c, f)| == 0
    ensures UpToDate(env, ws, es, c, f, f)
  {
    assert Pulls(env, ws, es, c, f);
    FirstTurn(env, ws[c.at[f]], es[c.at[f]], c.path, c.cursors[f]);
    ReceivesFirst(env, ws, es, c, f);
  }

  lemma SessionStarts(env: Env, ws: seq<World>, es: seq<Event>, c: Client, f: nat)
    requires Session(env, ws, es, c) && f < |c.at| && Anchored(env, ws, es, c, f) && |Received(env, ws, es, c, f)| == 0
    ensures UpToDate(env, ws, es, c, f, f)
  {
    FoundGrew(env, ws, es, c, f, f);
    StartsUpToDate(env, ws, es, c, f);
  }

  /** The client holds a number at pull `k`, and the buffer only grew since the pull before. */
  ghost predicate GoesOn(env: Env, ws: seq<World>, es: seq<Event>, c: Client, k: nat)
    requires Follows(env, ws, es, c) && 0 < k < |c.at|
  {
    var a, b := Found(env, ws, es, c, k - 1), Found(env, ws, es, c, k);
    c.cursors[k].At? && Kept(a) && Kept(b) && GrewWorld(a, b)
  }

  lemma SessionContinues(env: Env, ws: seq<World>, es: seq<Event>, c: Client, f: nat, k: nat)
    requires Follows(env, ws, es, c) && f < k < |c.at| && GoesOn(env, ws, es, c, k)
    requires UpToDate(env, ws, es, c, f, k - 1)
    ensures UpToDate(env, ws, es, c, f, k)
  {
    assert Pulls(env, ws, es, c, k);
    LaterTurn(env, Found(env, ws, es, c, k - 1), ws[c.at[k]], es[c.at[k]], c.path, StartAt(env, ws, es, c, f),
              Received(env, ws, es, c, k), c.cursors[k].n);
  }

  /** Each pull keeps the client up to date. */
  ghost predicate KeepsUp(env: Env, ws: seq<World>, es: seq<Event>, c: Client, f: nat, k: nat)
    requires Follows(env, ws, es, c) && f <= k < |c.at|
  {
    forall i: nat, j: nat {:trigger UpToDate(env, ws, es, c, f, i), UpToDate(env, ws, es, c, f, j)} ::
      f <= i < k && j == i + 1 && UpToDate(env, ws, es, c, f, i) ==> UpToDate(env, ws, es, c, f, j)
  }

  lemma KeepsUpAt(env: Env, ws: seq<World>, es: seq<Event>, c: Client, f: nat, i: nat, j: nat)
    requires Follows(env, ws, es, c) && f <= i < |c.at| - 1 && j == i + 1 && GoesOn(env, ws, es, c, j)
    requires UpToDate(env, ws, es, c, f, i)
    ensures UpToDate(env, ws, es, c, f, j)
  {
    SessionContinues(env, ws, es, c, f, j);
  }

  lemma WhileGoingOn(env: Env, ws: seq<World>, es: seq<Event>, c: Client, f: nat, k: nat)
    requires Follows(env, ws, es, c) && f <= k < |c.at|
    requires forall j {:trigger GoesOn(env, ws, es, c, j)} :: f < j <= k ==> GoesOn(env, ws, es, c, j)
    ensures KeepsUp(env, ws, es, c, f, k)
  {
    forall i: nat, j: nat | f <= i < k && j == i + 1 && UpToDate(env, ws, es, c, f, i)
      ensures UpToDate(env, ws, es, c, f, j)
    {
      assert GoesOn(env, ws, es, c, j);
      KeepsUpAt(env, ws, es, c, f, i, j);
    }
  }

  lemma StaysUpToDate(env: Env, ws: seq<World>, es: seq<Event>, c: Client, f: nat, k: nat)
    requires Follows(env, ws, es, c) && f <= k < |c.at|
    requires UpToDate(env, ws, es, c, f, f) && KeepsUp(env, ws, es, c, f, k)
    ensures UpToDate(env, ws, es, c, f, k)
  {
    Upwards((j: nat) => f <= j <= k && UpToDate(env, ws, es, c, f, j), f, k);
  }

  lemma GoesOnFrom(env: Env, ws: seq<World>, es: seq<Event>, c: Client, f: nat, k: nat)
    requires Session(env, ws, es, c) && f <= k < |c.at|
    requires forall j :: f < j <= k ==> c.cursors[j].At?
    ensures forall j {:trigger GoesOn(env, ws, es, c, j)} :: f < j <= k ==> GoesOn(env, ws, es, c, j)
  {
    forall j {:trigger GoesOn(env, ws, es, c, j)} | f < j <= k ensures GoesOn(env, ws, es, c, j) {
      FoundGrew(env, ws, es, c, j - 1, j);
    }
  }

  /** The first page with the empty cursor finds a matching record. */
  lemma PageIsAnchored(env: Env, ws: seq<World>, es: seq<Event>, c: Client, f: nat)
    requires Session(env, ws, es, c) && f < |c.at| && !c.cursors[f].At? && c.cursors[f + 1].At?
    ensures Anchored(env, ws, es, c, f)
  {
    assert Pulls(env, ws, es, c, f);
    FoundGrew(env, ws, es, c, f, f);
    var p := AnswerOf(env, ws[c.at[f]], es[c.at[f]], c.path, c.cursors[f]);
  }

  /** Where a pull starts was issued. */
  lemma AnchoredIsIssued(env: Env, ws: seq<World>, es: seq<Event>, c: Client, f: nat)
    requires Session(env, ws, es, c) && f < |c.at| && Anchored(env, ws, es, c, f)
    ensures StartAt(env, ws, es, c, f) <= Found(env, ws, es, c, f).st.nextSeq
  {
    var w := Found(env, ws, es, c, f);
    FoundGrew(env, ws, es, c, f, f);
    MatchingRising(env.glob, w.st.records, c.path, w.st.nextSeq);
    EffectiveSettled(Matching(env.glob, w.st.records, c.path), Asked(w.st, c.path, c.cursors[f]), w.st.nextSeq);
    var m := Present(env, ws, es, c, f);
    assert |m| > 0 ==> m[|m| - 1] <= w.st.nextSeq;
  }

  /** Whatever happens in between, what was received is exact from where the origin starts. */
  lemma ExactFromOrigin(env: Env, ws: seq<World>, es: seq<Event>, c: Client, k: nat)
    requires Session(env, ws, es, c) && k < |c.at| && Anchored(env, ws, es, c, 0)
    ensures Exactly(Present(env, ws, es, c, k), StartAt(env, ws, es, c, Origin(c.cursors, k)),
                    Reached(env, ws, es, c, k), Received(env, ws, es, c, k + 1))
    ensures var f := Origin(c.cursors, k); f < k ==> Anchored(env, ws, es, c, f)
  {
    var f := Origin(c.cursors, k);
    assert Pulls(env, ws, es, c, f);
    IdleReceives(env, ws, es, c, f);
    FoundGrew(env, ws, es, c, f, f);
    if f == k && |PageAt(env, ws[c.at[f]], es[c.at[f]])| == 0 {
      EmptyIsExact(env, ws[c.at[f]], es[c.at[f]], c.path, c.cursors[f]);
      assert Received(env, ws, es, c, k + 1) == [];
    } else {
      if f > 0 {
        var p := AnswerOf(env, ws[c.at[f]], es[c.at[f]], c.path, c.cursors[f]);
        PageIsAnchored(env, ws, es, c, f);
      }
      SessionStarts(env, ws, es, c, f);
      GoesOnFrom(env, ws, es, c, f, k);
      WhileGoingOn(env, ws, es, c, f, k);
      StaysUpToDate(env, ws, es, c, f, k);
    }
  }

  /** No number lies between the two. */
  predicate NonePassed(m: seq<int>, a: int, b: int) {
    forall i :: 0 <= i < |m| ==> (m[i] <= a <==> m[i] <= b)
  }

  lemma CutNonePassed(m: seq<int>, a: int, b: int, p: nat, q: nat)
    requires Cut(m, a, p) && Cut(m, b, q)
    ensures NonePassed(m, a, b) <==> p == q
  {
    if p < q {
      assert m[p] > a && m[p] <= b;
    } else if q < p {
      assert m[q] > b && m[q] <= a;
    }
  }

  lemma BetweenIff(m: seq<int>, max: int, a: int, b: int, cursor: int, received: seq<int>)
    requires Rising(m, max) && Exactly(m, b, cursor, received)
    ensures Exactly(m, a, cursor, received) <==> NonePassed(m, a, b)
  {
    var p, q :| Between(m, b, cursor, received, p, q);
    var o := RisingCut(m, max, a);
    CutNonePassed(m, a, b, o, p);
    if o == p {
      assert Between(m, a, cursor, received, o, q);
    } else if Exactly(m, a, cursor, received) {
      var p', q' :| Between(m, a, cursor, received, p', q');
      CutIsOne(m, cursor, q, q');
      CutIsOne(m, a, o, p');
    }
  }

  lemma NonePassedLater(m: seq<int>, m': seq<int>, a: int, b: int, max: int)
    requires m <= m' && a <= max && b <= max && forall i :: |m| <= i < |m'| ==> m'[i] > max
    ensures NonePassed(m, a, b) <==> NonePassed(m', a, b)
  {
    if NonePassed(m', a, b) {
      assert forall i :: 0 <= i < |m| ==> m[i] == m'[i];
    }
  }

  /** After every pull of a session, what was received is exactly the matching records after
      the start and up to where the client has got to, in order, none skipped and none
      repeated, if and only if the origin starts where the first pull started: the scope's
      cursor passed no matching record while the client held the empty cursor. Nothing that
      arrives after the first pull is before the start. */
  lemma SessionIsExactIff(env: Env, ws: seq<World>, es: seq<Event>, c: Client, k: nat)
    requires Session(env, ws, es, c) && k < |c.at| && Anchored(env, ws, es, c, 0)
    ensures var f := Origin(c.cursors, k);
      Exactly(Present(env, ws, es, c, k), StartAt(env, ws, es, c, 0), Reached(env, ws, es, c, k),
              Received(env, ws, es, c, k + 1))
      <==> NonePassed(Present(env, ws, es, c, f), StartAt(env, ws, es, c, 0), StartAt(env, ws, es, c, f))
    ensures StartAt(env, ws, es, c, 0) <= Found(env, ws, es, c, 0).st.nextSeq
  {
    var f := Origin(c.cursors, k);
    AnchoredIsIssued(env, ws, es, c, 0);
    FoundGrew(env, ws, es, c, 0, f);
    FoundGrew(env, ws, es, c, f, k);
    ExactFromOrigin(env, ws, es, c, k);
    var a, b := Found(env, ws, es, c, f), Found(env, ws, es, c, k);
    NumbersBetween(env, a, b, c.path);
    BetweenIff(Present(env, ws, es, c, k), b.st.nextSeq, StartAt(env, ws, es, c, 0), StartAt(env, ws, es, c, f),
               Reached(env, ws, es, c, k), Received(env, ws, es, c, k + 1));
    if f < k {
      AnchoredIsIssued(env, ws, es, c, f);
      NonePassedLater(Present(env, ws, es, c, f), Present(env, ws, es, c, k), StartAt(env, ws, es, c, 0),
                      StartAt(env, ws, es, c, f), a.st.nextSeq);
    }
  }

  lemma OriginIsFirst(env: Env, ws: seq<World>, es: seq<Event>, c: Client, k: nat)
    requires Session(env, ws, es, c) && k < |c.at| && c.cursors[0].At?
    ensures Origin(c.cursors, k) == 0
  {
    NumbersStay(env, ws, es, c, 0, Origin(c.cursors, k));
  }

  /** A client whose first cursor is a number is always exact. */
  lemma SessionIsExact(env: Env, ws: seq<World>, es: seq<Event>, c: Client, k: nat)
    requires Session(env, ws, es, c) && k < |c.at| && c.cursors[0].At? && Anchored(env, ws, es, c, 0)
    ensures Exactly(Present(env, ws, es, c, k), StartAt(env, ws, es, c, 0), Reached(env, ws, es, c, k),
                    Received(env, ws, es, c, k + 1))
    ensures StartAt(env, ws, es, c, 0) <= Found(env, ws, es, c, 0).st.nextSeq
  {
    OriginIsFirst(env, ws, es, c, k);
    SessionIsExactIff(env, ws, es, c, k);
  }

  /** A client that pulls twice, and receives nothing from the first. */
  lemma TwoPulls(env: Env, ws: seq<World>, es: seq<Event>, path: string, first: Cursor, i: nat, j: nat)
    returns (c: Client)
    requires |ws| == |es| + 1 && i < j < |es|
    requires ClientPull(es[i], path, first) && CursorAfter(env, ws[i], es[i]) == first
    requires ClientPull(es[j], path, first) && |PageAt(env, ws[i], es[i])| == 0
    ensures Follows(env, ws, es, c) && c.path == path && c.cursors == [first, first, CursorAfter(env, ws[j], es[j])]
    ensures |c.at| == 2 && Found(env, ws, es, c, 0) == ws[i] && Found(env, ws, es, c, 1) == ws[j]
    ensures Received(env, ws, es, c, 2) == Seqs(PageAt(env, ws[j], es[j]))
  {
    c := Client(path, [i, j], [first, first, CursorAfter(env, ws[j], es[j])]);
    assert Pulls(env, ws, es, c, 0);
    assert Pulls(env, ws, es, c, 1);
    assert |Received(env, ws, es, c, 0)| == 0;
    assert |Received(env, ws, es, c, 1)| == 0;
  }
}
