/** A client of the version 1 pull service that asks before there is anything, and keeps the
    empty cursor it is handed back. Meanwhile another client of its scope can be sent a record
    and acknowledge it, and the first one then never receives that. */
module PullV1Idle {
  import opened Prelude
  import opened Normalize
  import opened PullV1
  import opened PullV1Runs
  import opened PullV1Paging
  import opened PullV1Session
  import opened PullV1Reach
  import opened PullV1Restart
  import opened PullV1Breaks

  /** A pull with the empty cursor. */
  function Ask(path: string, id: string): (e: Event)
    ensures ClientPull(e, path, Committed)
  {
    Pull(path, Committed, Some(Limits(1, 1)), id)
  }

  /** It is answered with nothing when no matching record is after the committed cursor. */
  lemma AskedInVain(env: Env, ws: seq<World>, es: seq<Event>, path: string, id: string)
    requires Quiet(env, ws, es)
    requires var m, n := Numbers(env.glob, ws[|es|].st.records, path), Num(ws[|es|].st.committed, Scope(path));
      |m| == 0 || (m == [n] && n > 0)
    ensures Quiet(env, ws + [ws[|es|]], es + [Ask(path, id)])
    ensures |PageAt(env, ws[|es|], Ask(path, id))| == 0 && CursorAfter(env, ws[|es|], Ask(path, id)) == Committed
  {
    var w, n := ws[|es|], Num(ws[|es|].st.committed, Scope(path));
    var matching := Matching(env.glob, w.st.records, path);
    if |matching| > 0 {
      assert Seqs(matching)[0] == matching[0].seqNo == n;
    }
    AfterSplit(matching, n, |matching|);
    QuietSnoc(env, ws, es, Ask(path, id), w);
  }

  /** A run of one pull in vain, of a new service. */
  lemma AskedAtFirst(env: Env, path: string) returns (w: World)
    ensures Initial(w) && Quiet(env, [w, w], [Ask(path, "first")])
    ensures |PageAt(env, w, Ask(path, "first"))| == 0 && CursorAfter(env, w, Ask(path, "first")) == Committed
    ensures |Numbers(env.glob, w.st.records, path)| == 0
  {
    w := QuietStart(env);
    assert |Matching(env.glob, w.st.records, path)| == 0;
    AskedInVain(env, [w], [], path, "first");
    assert [w] + [w] == [w, w] && [] + [Ask(path, "first")] == [Ask(path, "first")];
  }

  lemma OnlyOne(env: Env, before: seq<Record>, records: seq<Record>, r: Record, path: string)
    requires |before| == 0 && records == before + [r] && Matches(env.glob, r.source, path)
    ensures Matching(env.glob, records, path) == [r] && Numbers(env.glob, records, path) == [r.seqNo]
  {
    assert records[..0] == before;
  }

  lemma InitialIsStale(w: World)
    requires Initial(w)
    ensures Stale(w.st, 1) && |w.st.records| == 0 && w.st.nextSeq == 0 && w.st.committed == map[] && w.acked == {}
  {
  }

  /** Then a record arrives, and another client is sent it and acknowledges it. */
  lemma ServedElsewhere(env: Env, ws: seq<World>, es: seq<Event>, path: string, source: string)
    returns (ws': seq<World>, es': seq<Event>)
    requires Quiet(env, ws, es) && Initial(ws[|es|]) && Matches(env.glob, source, path)
    ensures Quiet(env, ws', es') && ws <= ws' && es <= es'
    ensures Numbers(env.glob, ws'[|es'|].st.records, path) == [1]
    ensures ws'[|es'|].st.committed == map[Scope(path) := 1]
  {
    InitialIsStale(ws[|es|]);
    var before := ws[|es|].st.records;
    var ws1, es1, r := NextTick(env, ws, es, source, 1);
    var records := ws1[|es1|].st.records;
    OnlyOne(env, before, records, records[0], path);
    ws', es' := ServeOne(env, ws1, es1, path, records[0]);
  }

  /** The whole run: pulls in vain at the beginning and at the end. */
  lemma IdleRun(env: Env, path: string, source: string) returns (ws: seq<World>, es: seq<Event>,
                j: nat)
    requires Matches(env.glob, source, path)
    ensures Quiet(env, ws, es) && 0 < j < |es| && Initial(ws[0])
    ensures es[0] == Ask(path, "first") && CursorAfter(env, ws[0], es[0]) == Committed
    ensures |PageAt(env, ws[0], es[0])| == 0
    ensures es[j] == Ask(path, "again") && CursorAfter(env, ws[j], es[j]) == Committed
    ensures |PageAt(env, ws[j], es[j])| == 0
    ensures Numbers(env.glob, ws[j].st.records, path) == [1] && ws[j].st.committed == map[Scope(path) := 1]
  {
    var w := AskedAtFirst(env, path);
    var ws1, es1 := ServedElsewhere(env, [w, w], [Ask(path, "first")], path, source);
    j := |es1|;
    var end := ws1[j];
    AskedInVain(env, ws1, es1, path, "again");
    PrefixAt([w, w], ws1, 0);
    PrefixAt([Ask(path, "first")], es1, 0);
    ws, es := ws1 + [end], es1 + [Ask(path, "again")];
    assert ws[0] == w && ws[j] == end && es[0] == es1[0];
  }

  lemma OneIsMissed(env: Env, ws: seq<World>, es: seq<Event>, c: Client)
    requires Follows(env, ws, es, c) && |c.at| == 2 && Found(env, ws, es, c, 0).st.nextSeq == 0
    requires Present(env, ws, es, c, 1) == [1] && Received(env, ws, es, c, 2) == [] && Reached(env, ws, es, c, 1) == 1
    ensures !MissesNothing(env, ws, es, c, 1)
  {
    assert Present(env, ws, es, c, 1)[0] == 1;
    assert 1 in Present(env, ws, es, c, 1);
  }

  /** For whatever path matches a source, a run in which the client pulls a new service and
      later pulls again, both times with the empty cursor and in vain, although a record was
      buffered in between: the scope's cursor has passed it. */
  lemma IdleClientMisses(env: Env, path: string, source: string)
    returns (ws: seq<World>, es: seq<Event>, c: Client)
    requires Matches(env.glob, source, path)
    ensures Session(env, ws, es, c) && c.path == path && |c.at| == 2 && c.cursors == [Committed, Committed, Committed]
    ensures Initial(Found(env, ws, es, c, 0)) && Anchored(env, ws, es, c, 0)
    ensures Present(env, ws, es, c, 1) == [1] && Received(env, ws, es, c, 2) == [] && Reached(env, ws, es, c, 1) == 1
    ensures !MissesNothing(env, ws, es, c, 1)
  {
    var j;
    ws, es, j := IdleRun(env, path, source);
    QuietIsRun(env, ws, es);
    c := TwoPulls(env, ws, es, path, Committed, 0, j);
    OneIsMissed(env, ws, es, c);
  }
}
