/** Short runs of the version 1 pull service, for showing that a state can be reached: single
    lines, each buffered as a new record or counted as a duplicate of the last one. */
module PullV1Reach {
  import opened Runs
  import opened Text
  import opened Normalize
  import opened PullV1
  import opened PullV1Index
  import opened PullV1Runs
  import opened PullV1Paging

  // ---- Adding one record ----

  /** Line `l` is normalised to record `r`, which continues nothing. */
  ghost predicate Yields(digest: string -> string, l: Line, r: Record) {
    && Accepted(l) && r == Finalize(digest, FromLine(l)) && Normal(r)
    && forall current :: !ShouldContinue(current, r)
  }

  lemma AddAllOne(digest: string -> string, st: State, rs: seq<Record>, ledger: Ledger)
    requires |rs| == 1
    ensures AddAll(digest, st, rs) == AddOne(digest, st, rs[0])
    ensures NoteAll(digest, st, ledger, rs) == Note(ledger, Fate(st, rs[0]), rs[0])
  {
    assert |rs[..0]| == 0;
  }

  lemma AddOneLength(digest: string -> string, st: State, r: Record)
    ensures |AddOne(digest, st, r).records| <= |st.records| + 1
  {
  }

  lemma {:induction false} GroupedOne(digest: string -> string, lines: seq<Line>)
    requires |lines| == 1
    ensures Grouped(digest, lines, 1) == [Finalize(digest, FromLine(lines[0]))]
  {
    MergedOne(lines[0]);
    assert Normalize.StartOf(lines, 0) == 0 && lines[0..1] == [lines[0]];
    assert |Grouped(digest, lines, 0)| == 0;
  }

  lemma OneLineStep(digest: string -> string, st: State, lines: seq<Line>, r: Record, ledger: Ledger)
    requires |st.records| < MAX_BUFFERED && |lines| == 1 && r == Finalize(digest, FromLine(lines[0]))
    ensures AddStep(digest, st, lines) == AddOne(digest, st, r)
    ensures NoteAdd(digest, st, ledger, lines).evicted == ledger.evicted
  {
    GroupedOne(digest, lines);
    var rs := Grouped(digest, lines, 1);
    AddAllOne(digest, st, rs, ledger);
    AddOneLength(digest, st, r);
    assert ledger.evicted + [] == ledger.evicted;
  }

  lemma OneLineEffect(digest: string -> string, st: State, lines: seq<Line>, r: Record,
                      ledger: Ledger)
    returns (st': State, ledger': Ledger)
    requires |st.records| < MAX_BUFFERED && |lines| == 1 && r == Finalize(digest, FromLine(lines[0]))
    ensures st' == AddStep(digest, st, lines) == AddOne(digest, st, r)
    ensures ledger' == NoteAdd(digest, st, ledger, lines) && ledger'.evicted == ledger.evicted
  {
    OneLineStep(digest, st, lines, r, ledger);
    st', ledger' := AddOne(digest, st, r), NoteAdd(digest, st, ledger, lines);
  }

  /** Whatever was seen so far is outside the window of time `t`. */
  ghost predicate Stale(st: State, t: int) {
    && (forall i :: 0 <= i < |st.records| ==> st.records[i].timestamp + WINDOW < t)
    && (forall f :: f in st.index ==> st.index[f].lastSeen + WINDOW < t)
  }

  /** The last record is numbered `seqNo` and is like `r`, and the index has it. */
  ghost predicate EndsIn(st: State, r: Record, seqNo: int) {
    && |st.records| > 0 && r.fingerprint in st.index && st.index[r.fingerprint] == Entry(seqNo, r.timestamp)
    && var last := st.records[|st.records| - 1];
       && last.seqNo == seqNo && last.source == r.source && last.timestamp == r.timestamp
       && last.data == r.data && last.offset == r.offset
  }

  lemma FreshEffect(digest: string -> string, st: State, r: Record)
    requires Stale(st, r.timestamp) && Normal(r)
    ensures var st' := AddOne(digest, st, r);
      && st' == Push(st.(nextSeq := st.nextSeq + 1), r.(seqNo := st.nextSeq + 1))
      && EndsIn(st', r, st.nextSeq + 1) && Stale(st', r.timestamp + WINDOW + 1)
  {
    assert Fate(st, r) == Fresh;
  }

  lemma FindLast(records: seq<Record>)
    requires |records| > 0
    ensures Find(records, records[|records| - 1].seqNo) == |records| - 1
  {
  }

  lemma AgainEffect(digest: string -> string, st: State, r: Record, seqNo: int)
    requires EndsIn(st, r, seqNo) && Normal(r) && Stale(st, r.timestamp + WINDOW + 1)
    requires forall current :: !ShouldContinue(current, r)
    ensures var st' := AddOne(digest, st, r);
      && st' == st.(records := st'.records, nextSeq := st.nextSeq + 1)
      && |st'.records| == |st.records| && st'.records[..|st.records| - 1] == st.records[..|st.records| - 1]
      && EndsIn(st', r, seqNo) && Stale(st', r.timestamp + WINDOW + 1)
  {
    FindLast(st.records);
    assert Fate(st, r) == Again(|st.records| - 1);
    assert st.index[r.fingerprint := Entry(seqNo, r.timestamp)] == st.index;
  }

  // ---- Lines of one letter ----

  function Tick(source: string, t: int): Line {
    Line("x", "x", t, source, 1, Severity("", 0), "", "", 0)
  }

  lemma ShortContinuesNothing(last: string, multiline: bool, body: string)
    requires |body| == 1 && !Space(Go, body[0])
    ensures !Continues(last, multiline, body)
  {
    TrimTight(Go, body);
  }

  lemma TickYields(digest: string -> string, source: string, t: int) returns (r: Record)
    ensures Yields(digest, Tick(source, t), r)
    ensures r.source == source && r.timestamp == t && r.data == "x" && r.offset == 1
  {
    var l := Tick(source, t);
    r := Finalize(digest, FromLine(l));
    TrimTight(Go, "x");
    assert !Space(Go, l.body[0]);
    forall current ensures !ShouldContinue(current, r) {
      ShortContinuesNothing(LastLine(current.data), current.multiline.enabled, r.data);
    }
  }

  // ---- Runs ----

  lemma RunSnoc(env: Env, ws: seq<World>, es: seq<Event>, e: Event, w': World)
    requires Run(env, ws, es) && Next(env, ws[|es|], e, w')
    ensures Run(env, ws + [w'], es + [e])
  {
    StepsSnoc((w: World, e: Event, w': World) => Next(env, w, e, w'), ws, es, e, w');
  }

  ghost predicate QuietNext(env: Env, w: World, e: Event, w': World) {
    Next(env, w, e, w') && NoOverflow(w, w')
  }

  /** A run from the initial state in which the buffer does not overflow. */
  ghost predicate Quiet(env: Env, ws: seq<World>, es: seq<Event>) {
    Steps((w: World, e: Event, w': World) => QuietNext(env, w, e, w'), ws, es) && Initial(ws[0])
  }

  ghost predicate OnlyAdds(es: seq<Event>) {
    forall i {:trigger es[i]} :: 0 <= i < |es| ==> es[i].Add?
  }

  lemma QuietStart(env: Env) returns (w: World)
    ensures Quiet(env, [w], []) && Initial(w)
  {
    w := World(State([], 0, map[], map[], map[]), Ledger([], [], 0, 0, 0), {});
  }

  lemma QuietAt(env: Env, ws: seq<World>, es: seq<Event>, i: nat)
    requires Quiet(env, ws, es) && i < |es|
    ensures Next(env, ws[i], es[i], ws[i + 1]) && NoOverflow(ws[i], ws[i + 1])
  {
    var next := (w: World, e: Event, w': World) => QuietNext(env, w, e, w');
    assert next(ws[i], es[i], ws[i + 1]);
  }

  lemma StepsAreRun(env: Env, ws: seq<World>, es: seq<Event>)
    requires |ws| == |es| + 1 && Initial(ws[0])
    requires forall i {:trigger es[i]} :: 0 <= i < |es| ==> Next(env, ws[i], es[i], ws[i + 1])
    ensures Run(env, ws, es)
  {
  }

  lemma QuietIsRun(env: Env, ws: seq<World>, es: seq<Event>)
    requires Quiet(env, ws, es)
    ensures Run(env, ws, es) && NeverFull(ws, es)
  {
    forall i {:trigger es[i]} | 0 <= i < |es| ensures Next(env, ws[i], es[i], ws[i + 1]) {
      QuietAt(env, ws, es, i);
    }
    forall i | 0 <= i < |es| ensures NoOverflow(ws[i], ws[i + 1]) {
      QuietAt(env, ws, es, i);
    }
    StepsAreRun(env, ws, es);
  }

  lemma QuietSnoc(env: Env, ws: seq<World>, es: seq<Event>, e: Event, w': World)
    requires Quiet(env, ws, es) && QuietNext(env, ws[|es|], e, w')
    ensures Quiet(env, ws + [w'], es + [e])
  {
    StepsSnoc((w: World, e: Event, w': World) => QuietNext(env, w, e, w'), ws, es, e, w');
  }

  lemma AddIs(env: Env, w: World, lines: seq<Line>, st: State, ledger: Ledger) returns (w': World)
    requires st == AddStep(env.digest, w.st, lines) && ledger == NoteAdd(env.digest, w.st, w.ledger, lines)
    requires ledger.evicted == w.ledger.evicted && forall i :: 0 <= i < |lines| ==> Accepted(lines[i])
    ensures QuietNext(env, w, Add(lines), w') && w'.acked == w.acked && w'.st == st
  {
    w' := w.(st := st, ledger := ledger);
  }

  /** A run goes on with lines that do not fill the buffer. */
  lemma GoOnBy(env: Env, ws: seq<World>, es: seq<Event>, lines: seq<Line>, st: State, ledger: Ledger)
    returns (ws': seq<World>, es': seq<Event>)
    requires Quiet(env, ws, es) && forall i :: 0 <= i < |lines| ==> Accepted(lines[i])
    requires st == AddStep(env.digest, ws[|es|].st, lines)
    requires ledger == NoteAdd(env.digest, ws[|es|].st, ws[|es|].ledger, lines)
    requires ledger.evicted == ws[|es|].ledger.evicted
    ensures Quiet(env, ws', es') && ws <= ws' && es <= es' && (OnlyAdds(es) ==> OnlyAdds(es'))
    ensures ws'[|es'|].acked == ws[|es|].acked && ws'[|es'|].st == st
  {
    var w' := AddIs(env, ws[|es|], lines, st, ledger);
    QuietSnoc(env, ws, es, Add(lines), w');
    ws', es' := ws + [w'], es + [Add(lines)];
  }

  /** A run goes on with a line, when the buffer has room. */
  lemma GoOn(env: Env, ws: seq<World>, es: seq<Event>, l: Line, r: Record)
    returns (ws': seq<World>, es': seq<Event>)
    requires Quiet(env, ws, es) && |ws[|es|].st.records| < MAX_BUFFERED && Yields(env.digest, l, r)
    ensures Quiet(env, ws', es') && ws <= ws' && es <= es' && (OnlyAdds(es) ==> OnlyAdds(es'))
    ensures ws'[|es'|].acked == ws[|es|].acked && ws'[|es'|].st == AddOne(env.digest, ws[|es|].st, r)
  {
    var lines := [l];
    var st, ledger := OneLineEffect(env.digest, ws[|es|].st, lines, r, ws[|es|].ledger);
    ws', es' := GoOnBy(env, ws, es, lines, st, ledger);
  }

  /** Only the last record's count changed, and `n` numbers were drawn. */
  ghost predicate Repeats(a: World, b: World, n: nat) {
    && b.acked == a.acked && |b.st.records| == |a.st.records| > 0
    && b.st == a.st.(records := b.st.records, nextSeq := a.st.nextSeq + n)
    && b.st.records[..|a.st.records| - 1] == a.st.records[..|a.st.records| - 1]
  }

  lemma RepeatsOnce(a: World, b: World, c: World, n: nat)
    requires Repeats(a, b, n) && Repeats(b, c, 1)
    ensures Repeats(a, c, n + 1)
  {
  }

  lemma OnceMore(env: Env, ws: seq<World>, es: seq<Event>, l: Line, r: Record, seqNo: int)
    returns (ws': seq<World>, es': seq<Event>)
    requires Quiet(env, ws, es) && Yields(env.digest, l, r) && |ws[|es|].st.records| < MAX_BUFFERED
    requires EndsIn(ws[|es|].st, r, seqNo) && Stale(ws[|es|].st, r.timestamp + WINDOW + 1)
    ensures Quiet(env, ws', es') && ws <= ws' && es <= es' && Repeats(ws[|es|], ws'[|es'|], 1)
    ensures OnlyAdds(es) ==> OnlyAdds(es')
    ensures EndsIn(ws'[|es'|].st, r, seqNo) && Stale(ws'[|es'|].st, r.timestamp + WINDOW + 1)
  {
    AgainEffect(env.digest, ws[|es|].st, r, seqNo);
    ws', es' := GoOn(env, ws, es, l, r);
  }

  /** The line `l`, added `n` times to a run that ends in it. */
  lemma {:induction false} Drip(env: Env, ws: seq<World>, es: seq<Event>, l: Line, r: Record, seqNo: int, n: nat)
    returns (ws': seq<World>, es': seq<Event>)
    requires Quiet(env, ws, es) && Yields(env.digest, l, r) && |ws[|es|].st.records| < MAX_BUFFERED
    requires EndsIn(ws[|es|].st, r, seqNo) && Stale(ws[|es|].st, r.timestamp + WINDOW + 1)
    ensures Quiet(env, ws', es') && ws <= ws' && es <= es' && Repeats(ws[|es|], ws'[|es'|], n)
    ensures OnlyAdds(es) ==> OnlyAdds(es')
    ensures EndsIn(ws'[|es'|].st, r, seqNo) && Stale(ws'[|es'|].st, r.timestamp + WINDOW + 1)
  {
    if n == 0 {
      ws', es' := ws, es;
    } else {
      var ws1, es1 := Drip(env, ws, es, l, r, seqNo, n - 1);
      ws', es' := OnceMore(env, ws1, es1, l, r, seqNo);
      RepeatsOnce(ws[|es|], ws1[|es1|], ws'[|es'|], n - 1);
    }
  }

  /** A run that buffers one line. */
  lemma FirstTick(env: Env, source: string, t: int) returns (ws: seq<World>, es: seq<Event>,
                  r: Record)
    ensures Quiet(env, ws, es) && OnlyAdds(es) && Yields(env.digest, Tick(source, t), r)
    ensures r.source == source && r.timestamp == t && r.data == "x" && r.offset == 1
    ensures var w := ws[|es|];
      && |w.st.records| == 1 && w.st.nextSeq == 1 && EndsIn(w.st, r, 1) && Stale(w.st, t + WINDOW + 1)
      && w.st.pending == map[] && w.st.committed == map[] && w.acked == {}
  {
    r := TickYields(env.digest, source, t);
    var w := QuietStart(env);
    FreshEffect(env.digest, w.st, r);
    ws, es := GoOn(env, [w], [], Tick(source, t), r);
  }

  /** A run goes on with a new record. */
  lemma NextTick(env: Env, ws: seq<World>, es: seq<Event>, source: string, t: int)
    returns (ws': seq<World>, es': seq<Event>, r: Record)
    requires Quiet(env, ws, es) && Stale(ws[|es|].st, t) && |ws[|es|].st.records| < MAX_BUFFERED
    ensures Quiet(env, ws', es') && ws <= ws' && es <= es' && Yields(env.digest, Tick(source, t), r)
    ensures OnlyAdds(es) ==> OnlyAdds(es')
    ensures r.source == source && r.timestamp == t && r.data == "x" && r.offset == 1
    ensures var a, b := ws[|es|], ws'[|es'|];
      && b.acked == a.acked && b.st == a.st.(records := b.st.records, nextSeq := a.st.nextSeq + 1, index := b.st.index)
      && b.st.records == a.st.records + [r.(seqNo := a.st.nextSeq + 1)]
      && EndsIn(b.st, r, a.st.nextSeq + 1) && Stale(b.st, t + WINDOW + 1)
  {
    r := TickYields(env.digest, source, t);
    FreshEffect(env.digest, ws[|es|].st, r);
    ws', es' := GoOn(env, ws, es, Tick(source, t), r);
  }
}
