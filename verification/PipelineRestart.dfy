/** What a restart of the agent loses. Batches with workers are gone; their files are read again
    from the last checkpoint that was flushed, which can be any that was saved. */
module PipelineRestart {
  import opened Prelude
  import opened Runs
  import opened Text
  import opened Plugins
  import opened Pipeline

  /** The world when the agent starts again: the cache directory is still there. */
  function Restarted(w: World): World {
    w.(inFlight := {}, todo := [], resent := None)
  }

  /** What the flushed checkpoints can be. */
  ghost predicate Restores(w: World, restored: map<string, int>) {
    forall s :: s in restored ==> Save(s, restored[s]) in w.saves
  }

  /** The record is after the checkpoint from which its file is read again. */
  predicate Reread(restored: map<string, int>, r: Record) {
    r.source != "" && (r.source in restored ==> CheckpointOffset(r) > restored[r.source])
  }

  ghost predicate Recovered(w: World, restored: map<string, int>, n: nat)
    requires n < |w.log|
  {
    Kept(w, n) || forall r :: r in w.log[n] ==> Reread(restored, r)
  }

  /** Whatever was flushed, every batch was sent, is cached or will be read again. */
  ghost predicate RestartLosesNothing(w: World) {
    forall restored: map<string, int>, n: nat {:trigger Recovered(Restarted(w), restored, n)} ::
      n < |w.log| && Restores(w, restored) ==> Recovered(Restarted(w), restored, n)
  }

  /** No checkpoint of its source was saved at or past the record. */
  ghost predicate Ahead(w: World, r: Record) {
    r.source != "" && forall s :: s in w.saves && s.source == r.source ==> CheckpointOffset(r) > s.offset
  }

  /** Each batch with a worker was neither sent nor cached. */
  ghost predicate Unsettled(w: World) {
    && (forall n :: n in w.sent ==> n < |w.log|)
    && (forall n :: n in w.inFlight ==> n < |w.log| && n !in w.sent)
    && (forall x :: x in w.todo ==> x.batch !in w.inFlight && x.batch < |w.log|)
    && Placed(w)
  }

  lemma StepUnsettled(w: World, e: Event, w': World)
    requires Unsettled(w) && FreshNext(w, e, w')
    ensures Unsettled(w')
  {
    if e.Resend? {
      assert w.todo[0] in w.todo;
    }
  }

  lemma UnsettledAlways(ws: seq<World>, es: seq<Event>)
    requires Run(ws, es)
    ensures forall i :: 0 <= i < |ws| ==> Unsettled(ws[i])
  {
    forall w, e, w' | Unsettled(w) && FreshNext(w, e, w') ensures Unsettled(w') {
      StepUnsettled(w, e, w');
    }
    Invariant(FreshNext, ws, es, Unsettled);
  }

  lemma LostWhenPassed(w: World, n: nat, r: Record)
    requires Unsettled(w) && n in w.inFlight && r in w.log[n] && !Ahead(w, r)
    ensures !RestartLosesNothing(w)
  {
    var restored: map<string, int> := map[];
    if r.source != "" {
      var s :| s in w.saves && s.source == r.source && CheckpointOffset(r) <= s.offset;
      restored := map[s.source := s.offset];
      assert Save(s.source, s.offset) == s;
    }
    assert Restores(w, restored) && !Reread(restored, r);
    assert !Kept(Restarted(w), n);
    assert !Recovered(Restarted(w), restored, n);
  }

  lemma AheadIsReread(w: World, restored: map<string, int>, r: Record)
    requires Restores(w, restored) && Ahead(w, r)
    ensures Reread(restored, r)
  {
    if r.source in restored {
      assert Save(r.source, restored[r.source]) in w.saves;
    }
  }

  /** Exactly when a restart loses nothing: every record that is with a worker is ahead of the
      checkpoints that were saved for its source. */
  lemma RestartLosesNothingIff(ws: seq<World>, es: seq<Event>)
    requires Run(ws, es)
    ensures var w := ws[|es|];
      RestartLosesNothing(w) <==> forall n, r :: n in w.inFlight && n < |w.log| && r in w.log[n] ==> Ahead(w, r)
  {
    var w := ws[|es|];
    NothingIsLost(ws, es);
    UnsettledAlways(ws, es);
    if n, r :| n in w.inFlight && n < |w.log| && r in w.log[n] && !Ahead(w, r) {
      LostWhenPassed(w, n, r);
    } else {
      forall restored: map<string, int>, n: nat | n < |w.log| && Restores(w, restored)
        ensures Recovered(Restarted(w), restored, n)
      {
        assert Kept(w, n);
        if n in w.inFlight {
          forall r | r in w.log[n] ensures Reread(restored, r) {
            AheadIsReread(w, restored, r);
          }
        } else if n !in w.sent {
          var id :| id in w.cache && w.cache[id] == n;
          assert id in Restarted(w).cache;
        }
      }
    }
  }

  // ---- How many workers are safe ----

  ghost predicate Before(a: seq<Record>, b: seq<Record>) {
    forall x, y :: x in a && y in b && x.source == y.source ==> CheckpointOffset(x) < CheckpointOffset(y)
  }

  /** Later batches hold later records of each file, and every record is from a file. */
  ghost predicate InOrder(log: seq<seq<Record>>) {
    && (forall i, x :: 0 <= i < |log| && x in log[i] ==> x.source != "")
    && forall i, j {:trigger Before(log[i], log[j])} :: 0 <= i < j < |log| ==> Before(log[i], log[j])
  }

  /** At no time do more than `workers` batches have a worker. */
  ghost predicate Staffed(ws: seq<World>, workers: nat) {
    forall i :: 0 <= i < |ws| ==> |ws[i].inFlight| <= workers
  }

  /** Only the newest batch is with a worker. */
  ghost predicate OnlyNewest(w: World) {
    Unsettled(w) && forall n :: n in w.inFlight ==> n == |w.log| - 1
  }

  lemma OneMoreInFlight(a: set<nat>, n: nat)
    requires n !in a && |a + {n}| <= 1
    ensures a == {}
  {
    assert |a + {n}| == |a| + 1;
  }

  lemma StepOnlyNewest(w: World, e: Event, w': World)
    requires OnlyNewest(w) && FreshNext(w, e, w') && |w'.inFlight| <= 1
    ensures OnlyNewest(w')
  {
    StepUnsettled(w, e, w');
    if e.Process? {
      OneMoreInFlight(w.inFlight, |w.log|);
    }
  }

  lemma OneWorkerNewest(ws: seq<World>, es: seq<Event>)
    requires Run(ws, es) && Staffed(ws, 1)
    ensures forall i :: 0 <= i < |ws| ==> OnlyNewest(ws[i])
  {
    var next := (w: World, e: Event, w': World) => FreshNext(w, e, w') && |w'.inFlight| <= 1;
    forall w, e, w' | OnlyNewest(w) && next(w, e, w') ensures OnlyNewest(w') {
      StepOnlyNewest(w, e, w');
    }
    forall i {:trigger es[i]} | 0 <= i < |es| ensures next(ws[i], es[i], ws[i + 1]) {
      assert FreshNext(ws[i], es[i], ws[i + 1]);
    }
    Invariant(next, ws, es, OnlyNewest);
  }

  lemma LargestIsBefore(a: seq<Record>, b: seq<Record>, offset: int, r: Record)
    requires Before(a, b) && r in b && IsLargest(a, r.source, offset)
    ensures offset < CheckpointOffset(r)
  {
  }

  lemma NewestIsAhead(w: World, n: nat, r: Record)
    requires OnlyNewest(w) && SavesJustified(w) && InOrder(w.log) && n in w.inFlight && n < |w.log| && r in w.log[n]
    ensures Ahead(w, r)
  {
    forall s | s in w.saves && s.source == r.source ensures CheckpointOffset(r) > s.offset {
      assert Justified(w, s);
      var m :| m in w.sent && m < |w.log| && IsLargest(w.log[m], s.source, s.offset);
      assert Before(w.log[m], w.log[n]);
      LargestIsBefore(w.log[m], w.log[n], s.offset, r);
    }
  }

  lemma OneWorkerIsSafe(ws: seq<World>, es: seq<Event>)
    requires Run(ws, es) && Staffed(ws, 1) && InOrder(ws[|es|].log)
    ensures RestartLosesNothing(ws[|es|])
  {
    var w := ws[|es|];
    NothingIsLost(ws, es);
    OneWorkerNewest(ws, es);
    forall n, r | n in w.inFlight && n < |w.log| && r in w.log[n] ensures Ahead(w, r) {
      NewestIsAhead(w, n, r);
    }
    RestartLosesNothingIff(ws, es);
  }

  /** A record of a file that ends at this offset. */
  function Line(source: string, n: nat): Record {
    Record(source, 0, [], map["offset" := FormatNat(n)])
  }

  lemma LineOffset(source: string, n: nat)
    requires n <= MAX_INT64
    ensures CheckpointOffset(Line(source, n)) == n
  {
    CursorRoundTrip(Go, n);
  }

  lemma OneLineSaves(source: string, n: nat)
    requires n <= MAX_INT64 && source != ""
    ensures Saves([Line(source, n)], {source}) == {Save(source, n)}
  {
    var batch := [Line(source, n)];
    LineOffset(source, n);
    assert |batch[..0]| == 0;
    assert Latest(batch) == map[source := n];
  }

  /** Two workers take two batches, and the second one is sent first. */
  lemma SentInReverse(a: seq<Record>, b: seq<Record>, accepted: set<string>) returns (ws: seq<World>, es: seq<Event>)
    ensures Run(ws, es) && Staffed(ws, 2)
    ensures ws[|es|] == World([a, b], {0}, {1}, map[], [], None, Saves(b, accepted))
  {
    var w0 := World([], {}, {}, map[], [], None, {});
    var w1 := World([a], {0}, {}, map[], [], None, {});
    var w2 := World([a, b], {0, 1}, {}, map[], [], None, {});
    var w3 := World([a, b], {0}, {1}, map[], [], None, Saves(b, accepted));
    ws, es := [w0, w1, w2, w3], [Process(a), Process(b), Send(1, accepted)];
    assert Next(w0, Process(a), w1) && Next(w1, Process(b), w2) && Next(w2, Send(1, accepted), w3);
  }

  lemma TwoInOrder(source: string)
    requires source != ""
    ensures InOrder([[Line(source, 1)], [Line(source, 2)]])
  {
    LineOffset(source, 1);
    LineOffset(source, 2);
    assert Before([Line(source, 1)], [Line(source, 2)]);
  }

  lemma FirstIsPassed(w: World, source: string)
    requires Unsettled(w) && source != "" && 0 in w.inFlight && |w.log| > 0
    requires w.log[0] == [Line(source, 1)] && Save(source, 2) in w.saves
    ensures !RestartLosesNothing(w)
  {
    var x := Line(source, 1);
    LineOffset(source, 1);
    assert x in w.log[0] && !Ahead(w, x);
    LostWhenPassed(w, 0, x);
  }

  /** When both are of one file, the first one is lost. */
  lemma ReverseLoses(source: string) returns (ws: seq<World>, es: seq<Event>)
    requires source != ""
    ensures Run(ws, es) && Staffed(ws, 2) && InOrder(ws[|es|].log) && !RestartLosesNothing(ws[|es|])
  {
    ws, es := SentInReverse([Line(source, 1)], [Line(source, 2)], {source});
    OneLineSaves(source, 2);
    TwoInOrder(source);
    UnsettledAlways(ws, es);
    FirstIsPassed(ws[|es|], source);
  }

  /** A restart is safe at the end of every run of so many workers whose batches are in order. */
  ghost predicate AlwaysSafe(workers: nat) {
    forall ws: seq<World>, es: seq<Event> {:trigger Run(ws, es), Staffed(ws, workers)} ::
      Run(ws, es) && Staffed(ws, workers) && InOrder(ws[|es|].log) ==> RestartLosesNothing(ws[|es|])
  }

  /** Exactly with one worker. */
  lemma AlwaysSafeIff(workers: nat)
    requires workers > 0
    ensures AlwaysSafe(workers) <==> workers == 1
  {
    if workers == 1 {
      forall ws: seq<World>, es: seq<Event> | Run(ws, es) && Staffed(ws, workers) && InOrder(ws[|es|].log)
        ensures RestartLosesNothing(ws[|es|])
      {
        OneWorkerIsSafe(ws, es);
      }
    } else {
      var ws, es := ReverseLoses("a");
      assert Staffed(ws, workers);
    }
  }
}
