/** What a checkpoint of the version 1 pull service covers. An acknowledgement saves, for each
    source of its batch, the largest offset; records that overflow dropped can lie below it. */
module PullV1Checkpoints {
  import opened Prelude
  import opened Text
  import opened Normalize
  import opened PullV1
  import opened PullV1Index
  import opened PullV1Runs
  import opened PullV1Commits
  import opened PullV1Reach
  import opened PullV1Breaks
  import PullV1Service

  /** Every record of the source that was buffered, up to this offset, was acknowledged. */
  ghost predicate CoversAcked(w: World, path: string, source: string, offset: int) {
    forall r :: (r in w.st.records || r in w.ledger.evicted) && r.source == source && r.offset <= offset
      ==> (path, r.seqNo) in w.acked
  }

  /** Of those that overflow dropped, all were acknowledged or are in the batch. */
  ghost predicate DroppedAcked(w: World, b: Batch, source: string, offset: int) {
    forall r :: r in w.ledger.evicted && r.source == source && r.offset <= offset
      ==> (b.path, r.seqNo) in w.acked || Holds(b, r.seqNo)
  }

  /** What is buffered after a record of the batch is also later in the file. */
  ghost predicate InOrder(b: Batch, records: seq<Record>, source: string) {
    forall x, r :: x in b.records && r in records && x.source == r.source == source && r.seqNo > x.seqNo
      ==> r.offset > x.offset
  }

  lemma BufferedAcked(env: Env, w: World, id: string, w': World, source: string, saves: map<string, int>, r: Record)
    requires CommittedBatch(w, id, w') && w'.st.records == w.st.records
    requires SkipsNothing(env, w', w.st.pending[id].path) && EndsAt(w.st.pending[id])
    requires PullV1Service.IsLatest(w.st.pending[id].records, saves) && source in saves
    requires Matches(env.glob, source, w.st.pending[id].path) && InOrder(w.st.pending[id], w.st.records, source)
    requires r in w.st.records && r.source == source && r.offset <= saves[source]
    ensures (w.st.pending[id].path, r.seqNo) in w'.acked
  {
    var b := w.st.pending[id];
    var x :| x in b.records && x.source == source && x.offset == saves[source];
    assert r.seqNo <= x.seqNo <= b.next;
  }

  lemma FrontIsRun(env: Env, ws: seq<World>, es: seq<Event>)
    requires FrontRun(env, ws, es)
    ensures Run(env, ws, es)
  {
    var next := (w: World, e: Event, w': World) => FrontNext(env, w, e, w');
    forall i | 0 <= i < |es| ensures Next(env, ws[i], es[i], ws[i + 1]) {
      assert next(ws[i], es[i], ws[i + 1]);
    }
  }

  lemma StepCoversIff(env: Env, w: World, id: string, w': World, source: string, saves: map<string, int>)
    requires CommittedBatch(w, id, w') && w'.ledger == w.ledger
    requires var b := w.st.pending[id];
      && SkipsNothing(env, w', b.path) && EndsAt(b)
      && PullV1Service.IsLatest(b.records, saves) && source in saves
      && Matches(env.glob, source, b.path) && InOrder(b, w.st.records, source)
    ensures var b := w.st.pending[id];
      CoversAcked(w', b.path, source, saves[source]) <==> DroppedAcked(w, b, source, saves[source])
  {
    var b := w.st.pending[id];
    assert forall n :: (b.path, n) in w'.acked <==> (b.path, n) in w.acked || Holds(b, n);
    forall r | r in w'.st.records && r.source == source && r.offset <= saves[source]
      ensures (b.path, r.seqNo) in w'.acked
    {
      BufferedAcked(env, w, id, w', source, saves, r);
    }
  }

  /** In every run of careful clients: what an acknowledgement saves for a source covers only
      acknowledged records exactly when overflow dropped none of them unacknowledged. */
  lemma SavedCoversIff(env: Env, ws: seq<World>, es: seq<Event>, i: nat, source: string, saves: map<string, int>)
    requires FrontRun(env, ws, es) && i < |es|
    requires es[i].Acknowledge? && CommittedBatch(ws[i], es[i].batchId, ws[i + 1])
    requires var b := ws[i].st.pending[es[i].batchId];
      && PullV1Service.IsLatest(b.records, saves) && source in saves
      && Matches(env.glob, source, b.path) && InOrder(b, ws[i].st.records, source)
    ensures var b := ws[i].st.pending[es[i].batchId];
      CoversAcked(ws[i + 1], b.path, source, saves[source]) <==> DroppedAcked(ws[i], b, source, saves[source])
  {
    var w, w', id := ws[i], ws[i + 1], es[i].batchId;
    FrontIsRun(env, ws, es);
    FrontCareful(env, ws, es);
    RunAckedBelow(env, ws, es);
    var next := (w: World, e: Event, w': World) => Next(env, w, e, w');
    assert next(w, es[i], w');
    assert w.st.pending[id].path != "*" && SkipsNothing(env, w', w.st.pending[id].path);
    assert EndsAt(w.st.pending[id]);
    StepCoversIff(env, w, id, w', source, saves);
  }

  // ---- A run that loses one ----

  /** The buffer holds a record of source "a" and `n - 1` later ones of no source. */
  ghost predicate Filled(st: State, n: nat, t: int) {
    && |st.records| == n > 0 && st.nextSeq == n && Stale(st, t) && st.pending == map[] && st.committed == map[]
    && st.records[0].source == "a" && st.records[0].offset == 1 && st.records[0].seqNo == 1
    && forall i :: 0 < i < n ==> st.records[i].source == ""
  }

  lemma FilledMore(a: State, b: State, n: nat, t: int, t': int, r: Record)
    requires Filled(a, n, t) && Stale(b, t') && r.source == ""
    requires b == a.(records := a.records + [r], nextSeq := n + 1, index := b.index)
    ensures Filled(b, n + 1, t')
  {
  }

  lemma FillNext(env: Env, ws: seq<World>, es: seq<Event>, n: nat, t: int)
    returns (ws': seq<World>, es': seq<Event>)
    requires Quiet(env, ws, es) && OnlyAdds(es) && Filled(ws[|es|].st, n, t) && n < MAX_BUFFERED
    ensures Quiet(env, ws', es') && OnlyAdds(es') && Filled(ws'[|es'|].st, n + 1, t + WINDOW + 1)
    ensures ws'[|es'|].acked == ws[|es|].acked
  {
    var r;
    ws', es', r := NextTick(env, ws, es, "", t);
    FilledMore(ws[|es|].st, ws'[|es'|].st, n, t, t + WINDOW + 1, r.(seqNo := n + 1));
  }

  lemma {:induction false} Fill(env: Env, n: nat) returns (ws: seq<World>, es: seq<Event>, t: int)
    requires 0 < n <= MAX_BUFFERED
    ensures Quiet(env, ws, es) && OnlyAdds(es) && Filled(ws[|es|].st, n, t) && ws[|es|].acked == {}
  {
    if n == 1 {
      var r;
      ws, es, r := FirstTick(env, "a", 1);
      t := WINDOW + 2;
    } else {
      ws, es, t := Fill(env, n - 1);
      ws, es := FillNext(env, ws, es, n - 1, t);
      t := t + WINDOW + 1;
    }
  }

  lemma DropFirst(records: seq<Record>, r: Record)
    requires |records| > 0
    ensures (records + [r])[..1] == [records[0]] && (records + [r])[1..] == records[1..] + [r]
  {
  }

  lemma TrimmedByOne(st: State, records: seq<Record>, r: Record)
    requires |records| == MAX_BUFFERED && st.records == records + [r]
    ensures Excess(st) == [records[0]] && Trimmed(st).records == records[1..] + [r]
    ensures Trimmed(st) == st.(records := Trimmed(st).records, index := Trimmed(st).index)
  {
    DropFirst(records, r);
  }

  lemma OneMoreAdded(digest: string -> string, st: State, lines: seq<Line>, r: Record,
                     ledger: Ledger)
    requires |lines| == 1 && r == Finalize(digest, FromLine(lines[0]))
    ensures AddStep(digest, st, lines) == Trimmed(AddOne(digest, st, r))
    ensures NoteAdd(digest, st, ledger, lines).evicted == ledger.evicted + Excess(AddOne(digest, st, r))
  {
    GroupedOne(digest, lines);
    AddAllOne(digest, st, Grouped(digest, lines, 1), ledger);
  }

  /** One more line of source "a" drops the first one. */
  lemma Overflows(env: Env, w: World, t: int) returns (w': World, r: Record)
    requires Filled(w.st, MAX_BUFFERED, t)
    ensures FrontNext(env, w, Add([Tick("a", t)]), w') && w'.acked == w.acked
    ensures w'.st.records == w.st.records[1..] + [r] && r.source == "a" && r.offset == 1 && r.seqNo == MAX_BUFFERED + 1
    ensures w'.st.pending == map[] && w'.st.committed == map[] && w.st.records[0] in w'.ledger.evicted
  {
    var lines := [Tick("a", t)];
    var made := TickYields(env.digest, "a", t);
    FreshEffect(env.digest, w.st, made);
    OneMoreAdded(env.digest, w.st, lines, made, w.ledger);
    r := made.(seqNo := w.st.nextSeq + 1);
    TrimmedByOne(AddOne(env.digest, w.st, made), w.st.records, r);
    w' := w.(st := AddStep(env.digest, w.st, lines), ledger := NoteAdd(env.digest, w.st, w.ledger, lines));
  }

  lemma OnlyA(glob: (string, string) -> bool)
    ensures Matches(glob, "a", "a") && !Matches(glob, "", "a")
  {
    SplitWhole("a", ',');
    TrimTight(Go, "a");
    TrimTight(Go, "");
    FlatMapOne("a", KeptLine);
    assert Patterns("a")[0] == "a";
    assert "a" in Patterns("a");
  }

  lemma {:induction false} NoneAsked(glob: (string, string) -> bool, records: seq<Record>)
    requires forall i :: 0 <= i < |records| ==> records[i].source == ""
    ensures |Matching(glob, records, "a")| == 0
  {
    OnlyA(glob);
    if |records| > 0 {
      NoneAsked(glob, records[..|records| - 1]);
    }
  }

  lemma LastAsked(glob: (string, string) -> bool, front: seq<Record>, records: seq<Record>, r: Record)
    requires forall i :: 0 <= i < |front| ==> front[i].source == ""
    requires records == front + [r] && r.source == "a"
    ensures Matching(glob, records, "a") == [r]
  {
    NoneAsked(glob, front);
    OnlyA(glob);
    assert records[..|records| - 1] == front;
  }

  lemma SavedPast(w: World, w': World, first: Record, last: Record)
    requires first in w'.ledger.evicted && first.source == "a" && first.offset == last.offset == 1
    requires first.seqNo == 1 < last.seqNo && w'.acked == {("a", last.seqNo)} && last.source == "a"
    ensures PullV1Service.IsLatest([last], map["a" := 1]) && !CoversAcked(w', "a", "a", 1)
  {
    assert PullV1Service.Attained([last], "a", 1) by {
      assert last in [last] && PullV1Service.Counts(last);
    }
  }

  /** A run of careful clients goes on with the three steps. */
  lemma FrontThree(env: Env, ws: seq<World>, es: seq<Event>, a: Event, b: Event, c: Event,
                   x: World, y: World, z: World)
    returns (ws': seq<World>, es': seq<Event>)
    requires FrontRun(env, ws, es) && FrontNext(env, ws[|es|], a, x)
    requires FrontNext(env, x, b, y) && FrontNext(env, y, c, z)
    ensures FrontRun(env, ws', es') && |es'| == |es| + 3
    ensures es'[|es| + 2] == c && ws'[|es| + 2] == y && ws'[|es| + 3] == z
  {
    FrontSnoc(env, ws, es, a, x);
    FrontSnoc(env, ws + [x], es + [a], b, y);
    FrontSnoc(env, ws + [x] + [y], es + [a] + [b], c, z);
    ws', es' := ws + [x] + [y] + [z], es + [a] + [b] + [c];
  }

  /** After the buffer has overflowed: the pull, and its acknowledgement. */
  lemma ServesLast(env: Env, x: World, front: seq<Record>, first: Record, last: Record) returns (y: World, z: World)
    requires x.st.records == front + [last] && x.st.committed == map[] && x.acked == {}
    requires forall i :: 0 <= i < |front| ==> front[i].source == ""
    requires first in x.ledger.evicted && first.source == "a" && first.offset == 1 && first.seqNo == 1
    requires last.source == "a" && last.offset == 1 && last.seqNo > 1
    ensures FrontNext(env, x, AskOne("a"), y) && FrontNext(env, y, Acknowledge("id", Ack, Committed), z)
    ensures CommittedBatch(y, "id", z) && y.st.records == x.st.records && !CoversAcked(z, "a", "a", 1)
    ensures y.st.pending["id"] == Batch("a", last.seqNo, [last]) && PullV1Service.IsLatest([last], map["a" := 1])
  {
    LastAsked(env.glob, front, x.st.records, last);
    y := PulledOne(env, x, "a", last);
    z := AckedOne(env, y, "a", last);
    SavedPast(y, z, first, last);
  }

  lemma LastInOrder(front: seq<Record>, last: Record)
    requires forall i :: 0 <= i < |front| ==> front[i].source == ""
    ensures InOrder(Batch("a", last.seqNo, [last]), front + [last], "a")
  {
  }

  /** The last three steps, after the buffer was filled. */
  lemma LastSteps(env: Env, full: World, t: int) returns (x: World, y: World, z: World)
    requires Filled(full.st, MAX_BUFFERED, t) && full.acked == {}
    ensures FrontNext(env, full, Add([Tick("a", t)]), x) && FrontNext(env, x, AskOne("a"), y)
    ensures FrontNext(env, y, Acknowledge("id", Ack, Committed), z) && CommittedBatch(y, "id", z)
    ensures var b := y.st.pending["id"];
      b.path == "a" && PullV1Service.IsLatest(b.records, map["a" := 1]) && InOrder(b, y.st.records, "a")
    ensures !CoversAcked(z, "a", "a", 1)
  {
    var last;
    x, last := Overflows(env, full, t);
    var front := full.st.records[1..];
    y, z := ServesLast(env, x, front, full.st.records[0], last);
    LastInOrder(front, last);
  }

  /** Where a checkpoint covers a record that nobody acknowledged: a line of source "a", enough
      others to fill the buffer, one more line of "a", which drops the first, and a pull of "a"
      with its acknowledgement. The batch meets every condition of SavedCoversIff. */
  lemma SavedPastDropped(env: Env) returns (ws: seq<World>, es: seq<Event>, i: nat)
    ensures FrontRun(env, ws, es) && |es| == i + 1 && es[i] == Acknowledge("id", Ack, Committed)
    ensures CommittedBatch(ws[i], "id", ws[i + 1])
    ensures var b := ws[i].st.pending["id"];
      && b.path == "a" && PullV1Service.IsLatest(b.records, map["a" := 1])
      && Matches(env.glob, "a", "a") && InOrder(b, ws[i].st.records, "a")
    ensures !CoversAcked(ws[i + 1], "a", "a", 1)
  {
    var t;
    ws, es, t := Fill(env, MAX_BUFFERED);
    AddsAreFront(env, ws, es);
    i := |es| + 2;
    var x, y, z := LastSteps(env, ws[|es|], t);
    ws, es := FrontThree(env, ws, es, Add([Tick("a", t)]), AskOne("a"), Acknowledge("id", Ack, Committed), x, y, z);
    OnlyA(env.glob);
  }
}
