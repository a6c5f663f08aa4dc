/** The pipeline's code in the runs of Pipeline. Workers take batches, and send or cache them,
    while others have theirs; the replay loop lists the cache, sends its batches again and
    removes their files, while workers go on. Each such piece of work is a step, so the batches
    of any sequence of them end up delivered, in the cache or with a worker. */
module PipelineAgent {
  import opened Prelude
  import opened Runs
  import opened Plugins
  import opened PipelineWorker
  import P = Pipeline

  /** What the code has: the batches with workers, by number, and how many were taken; the cache
      files, everything delivered, and the checkpoints; the cached batches that the replay loop
      has loaded and not yet tried, and the one it sent and has not yet removed. */
  datatype Shop = Shop(
    held: map<nat, seq<Record>>,
    taken: nat,
    files: map<string, seq<Record>>,
    delivered: seq<seq<Record>>,
    saves: set<P.Save>,
    loaded: seq<Cached>,
    resent: Option<Cached>)

  ghost predicate SameHeld(held: map<nat, seq<Record>>, w: P.World) {
    && (forall n :: n in held <==> n in w.inFlight)
    && (forall n :: n in held ==> n < |w.log| && held[n] == w.log[n])
  }

  /** The files hold the batches whose numbers the cache has. */
  ghost predicate SameFiles(files: map<string, seq<Record>>, w: P.World) {
    && (forall id :: id in files <==> id in w.cache)
    && (forall id :: id in w.cache ==> w.cache[id] < |w.log| && files[id] == w.log[w.cache[id]])
  }

  ghost predicate Same(x: Cached, y: P.Loaded, w: P.World) {
    x.id == y.id && y.batch < |w.log| && x.records == w.log[y.batch]
  }

  ghost predicate SameReplay(loaded: seq<Cached>, resent: Option<Cached>, w: P.World) {
    && |loaded| == |w.todo|
    && (forall i :: 0 <= i < |loaded| ==> Same(loaded[i], w.todo[i], w))
    && (resent.Some? <==> w.resent.Some?)
    && (resent.Some? ==> Same(resent.value, w.resent.value, w))
  }

  ghost predicate AllDelivered(delivered: seq<seq<Record>>, w: P.World) {
    forall n :: n in w.sent ==> n < |w.log| && w.log[n] in delivered
  }

  /** The shop is the world with contents for numbers. */
  ghost predicate Mirrors(shop: Shop, w: P.World) {
    && shop.taken == |w.log| && shop.saves == w.saves && SameHeld(shop.held, w) && SameFiles(shop.files, w)
    && SameReplay(shop.loaded, shop.resent, w) && AllDelivered(shop.delivered, w)
  }

  // ---- What the code does, on values ----

  function Taken(shop: Shop, batch: seq<Record>): Shop {
    shop.(held := shop.held[shop.taken := batch], taken := shop.taken + 1)
  }

  function Worked(shop: Shop, n: nat, id: string, sent: bool, accepts: string -> bool): Shop
    requires n in shop.held
  {
    var batch, rest := shop.held[n], shop.(held := shop.held - {n});
    if sent then
      rest.(delivered := shop.delivered + [batch], saves := shop.saves + P.Saves(batch, Accepted(batch, accepts)))
    else rest.(files := shop.files[id := batch])
  }

  function Reloaded(shop: Shop, names: seq<string>): Shop {
    shop.(loaded := Listed(shop.files, names))
  }

  function Retried(shop: Shop, done: bool): Shop
    requires |shop.loaded| > 0
  {
    var x, rest := shop.loaded[0], shop.(loaded := shop.loaded[1..]);
    if done then rest.(delivered := shop.delivered + [x.records], resent := Some(x)) else rest
  }

  function Settled(shop: Shop, removes: bool): Shop
    requires shop.resent.Some?
  {
    shop.(files := if removes then shop.files - {shop.resent.value.id} else shop.files, resent := None)
  }

  // ---- Which steps these are ----

  lemma TakeIsStep(shop: Shop, w: P.World, batch: seq<Record>) returns (w': P.World)
    requires Mirrors(shop, w)
    ensures P.Next(w, P.Process(batch), w') && w'.log == w.log + [batch] && Mirrors(Taken(shop, batch), w')
  {
    w' := w.(log := w.log + [batch], inFlight := w.inFlight + {|w.log|});
    assert forall n :: 0 <= n < |w.log| ==> w'.log[n] == w.log[n];
  }

  lemma MoreDelivered(delivered: seq<seq<Record>>, w: P.World, n: nat, w': P.World)
    requires AllDelivered(delivered, w) && n < |w.log| && w'.log == w.log && w'.sent == w.sent + {n}
    ensures AllDelivered(delivered + [w.log[n]], w')
  {
    var more := delivered + [w.log[n]];
    assert more[|delivered|] == w.log[n];
  }

  /** A worker sends its batch, whatever the others have. */
  lemma SendIsStep(shop: Shop, w: P.World, n: nat, id: string, accepts: string -> bool) returns (w': P.World)
    requires Mirrors(shop, w) && n in shop.held
    ensures P.Next(w, P.Send(n, Accepted(shop.held[n], accepts)), w') && w'.log == w.log
    ensures Mirrors(Worked(shop, n, id, true, accepts), w')
  {
    w' := w.(inFlight := w.inFlight - {n}, sent := w.sent + {n},
             saves := w.saves + P.Saves(w.log[n], Accepted(w.log[n], accepts)));
    MoreDelivered(shop.delivered, w, n, w');
  }

  /** Or caches it. */
  lemma StoreIsStep(shop: Shop, w: P.World, n: nat, id: string, accepts: string -> bool) returns (w': P.World)
    requires Mirrors(shop, w) && n in shop.held
    ensures P.Next(w, P.Store(n, id), w') && w'.log == w.log
    ensures Mirrors(Worked(shop, n, id, false, accepts), w')
  {
    w' := w.(inFlight := w.inFlight - {n}, cache := w.cache[id := n]);
  }

  lemma ListedNumber(files: map<string, seq<Record>>, names: seq<string>, id: string) returns (i: nat)
    requires id in files && id in names
    ensures i < |Listed(files, names)| && Listed(files, names)[i].id == id
  {
    ListedHas(files, names, id);
    i :| 0 <= i < |Listed(files, names)| && Listed(files, names)[i] == Cached(id, files[id]);
  }

  /** Loading the cache finds every file of the listing. */
  lemma LoadIsStep(shop: Shop, w: P.World, names: seq<string>) returns (found: seq<P.Loaded>, w': P.World)
    requires Mirrors(shop, w) && |shop.loaded| == 0 && shop.resent.None?
    ensures P.Next(w, P.Load(found), w') && w'.log == w.log && Mirrors(Reloaded(shop, names), w')
    ensures forall id :: id in names && id in w.cache ==> P.Loaded(id, w.cache[id]) in found
  {
    var listed := Listed(shop.files, names);
    found := seq(|listed|, i requires 0 <= i < |listed| =>
      assert listed[i] in listed; P.Loaded(listed[i].id, w.cache[listed[i].id]));
    w' := w.(todo := found);
    forall x | x in found ensures x.id in w.cache && w.cache[x.id] == x.batch {
      var i :| 0 <= i < |found| && found[i] == x;
      assert listed[i] in listed;
    }
    forall i | 0 <= i < |listed| ensures Same(listed[i], found[i], w') {
      assert listed[i] in listed;
    }
    forall id | id in names && id in w.cache ensures P.Loaded(id, w.cache[id]) in found {
      var i := ListedNumber(shop.files, names, id);
      assert found[i] == P.Loaded(id, w.cache[id]);
    }
  }

  /** The replay loop sends its next batch again. */
  lemma ResendIsStep(shop: Shop, w: P.World) returns (w': P.World)
    requires Mirrors(shop, w) && |shop.loaded| > 0 && shop.resent.None?
    ensures P.Next(w, P.Resend, w') && w'.log == w.log && Mirrors(Retried(shop, true), w')
  {
    var x := w.todo[0];
    assert Same(shop.loaded[0], x, w);
    w' := w.(todo := w.todo[1..], sent := w.sent + {x.batch}, resent := Some(x));
    MoreDelivered(shop.delivered, w, x.batch, w');
  }

  /** Or passes over it. */
  lemma SkipIsStep(shop: Shop, w: P.World) returns (w': P.World)
    requires Mirrors(shop, w) && |shop.loaded| > 0 && shop.resent.None?
    ensures P.Next(w, P.Skip, w') && w'.log == w.log && Mirrors(Retried(shop, false), w')
  {
    w' := w.(todo := w.todo[1..]);
  }

  /** It removes the file of the batch it sent, whatever that holds by now, or cannot. */
  lemma RemoveIsStep(shop: Shop, w: P.World, removes: bool) returns (w': P.World)
    requires Mirrors(shop, w) && shop.resent.Some?
    ensures P.Next(w, if removes then P.Remove else P.Skip, w') && w'.log == w.log
    ensures Mirrors(Settled(shop, removes), w')
  {
    w' := w.(cache := if removes then w.cache - {w.resent.value.id} else w.cache, resent := None);
  }

  // ---- Any sequence of work ----

  /** A worker takes a batch that passed the plugins; a worker is done with the batch of this
      number; the replay loop lists the cache; it tries its next batch; it is done with that. */
  datatype Job =
    | Take(batch: seq<Record>)
    | Finish(n: nat, out: Outside, id: string, accepts: string -> bool)
    | Reload(names: seq<string>)
    | Retry(out: Outside)
    | Settle(removes: bool)

  ghost predicate JobsEnd(jobs: seq<Job>, maxRetries: int, horizon: nat) {
    forall i {:trigger jobs[i]} :: 0 <= i < |jobs| && (jobs[i].Finish? || jobs[i].Retry?) ==>
      Ends(jobs[i].out, maxRetries, horizon)
  }

  /** No two batches draw the same identifier. */
  predicate DistinctIds(jobs: seq<Job>) {
    forall i, j :: 0 <= i < j < |jobs| && jobs[i].Finish? && jobs[j].Finish? ==> jobs[i].id != jobs[j].id
  }

  /** The batches among the first jobs, in order. */
  function Batches(jobs: seq<Job>, n: nat): seq<seq<Record>>
    requires n <= |jobs|
  {
    if n == 0 then [] else Batches(jobs, n - 1) + if jobs[n - 1].Take? then [jobs[n - 1].batch] else []
  }

  lemma {:induction false} BatchesHave(jobs: seq<Job>, n: nat)
    requires n <= |jobs|
    ensures forall i :: 0 <= i < n && jobs[i].Take? ==> jobs[i].batch in Batches(jobs, n)
    ensures forall b :: b in Batches(jobs, n) ==> exists i :: 0 <= i < n && jobs[i].Take? && jobs[i].batch == b
  {
    if n > 0 {
      BatchesHave(jobs, n - 1);
    }
  }

  /** The identifiers in use were drawn by workers. */
  ghost predicate KnownIds(jobs: seq<Job>, n: nat, w: P.World)
    requires n <= |jobs|
  {
    forall id :: P.InUse(w, id) ==> exists i :: 0 <= i < n && jobs[i].Finish? && jobs[i].id == id
  }

  lemma KnownGrows(jobs: seq<Job>, n: nat, w: P.World, w': P.World)
    requires n < |jobs| && KnownIds(jobs, n, w)
    requires forall id :: P.InUse(w', id) ==> P.InUse(w, id) || (jobs[n].Finish? && id == jobs[n].id)
    ensures KnownIds(jobs, n + 1, w')
  {
    forall id | P.InUse(w', id) ensures exists i :: 0 <= i < n + 1 && jobs[i].Finish? && jobs[i].id == id {
      if P.InUse(w, id) {
        var i :| 0 <= i < n && jobs[i].Finish? && jobs[i].id == id;
      } else {
        assert jobs[n].Finish? && jobs[n].id == id;
      }
    }
  }

  /** The state of the code after some of the jobs: a world of some run, with the batches so far. */
  ghost predicate Behind(jobs: seq<Job>, n: nat, shop: Shop, ws: seq<P.World>, es: seq<P.Event>)
    requires n <= |jobs|
  {
    && P.Run(ws, es) && Mirrors(shop, ws[|es|])
    && ws[|es|].log == Batches(jobs, n) && KnownIds(jobs, n, ws[|es|])
  }

  lemma RunSnoc(ws: seq<P.World>, es: seq<P.Event>, e: P.Event, w': P.World)
    returns (ws': seq<P.World>, es': seq<P.Event>)
    requires P.Run(ws, es) && P.FreshNext(ws[|es|], e, w')
    ensures P.Run(ws', es') && |ws'| == |es'| + 1 && ws'[|es'|] == w'
  {
    StepsSnoc(P.FreshNext, ws, es, e, w');
    ws', es' := ws + [w'], es + [e];
  }

  lemma TakeGoesOn(jobs: seq<Job>, n: nat, shop: Shop, ws: seq<P.World>, es: seq<P.Event>)
    returns (ws': seq<P.World>, es': seq<P.Event>)
    requires n < |jobs| && jobs[n].Take? && Behind(jobs, n, shop, ws, es)
    ensures Behind(jobs, n + 1, Taken(shop, jobs[n].batch), ws', es')
  {
    var w := ws[|es|];
    var w' := TakeIsStep(shop, w, jobs[n].batch);
    ws', es' := RunSnoc(ws, es, P.Process(jobs[n].batch), w');
    KnownGrows(jobs, n, w, w');
  }

  lemma FinishGoesOn(jobs: seq<Job>, n: nat, shop: Shop, ws: seq<P.World>, es: seq<P.Event>, sent: bool)
    returns (ws': seq<P.World>, es': seq<P.Event>)
    requires n < |jobs| && jobs[n].Finish? && DistinctIds(jobs) && Behind(jobs, n, shop, ws, es)
    requires jobs[n].n in shop.held
    ensures Behind(jobs, n + 1, Worked(shop, jobs[n].n, jobs[n].id, sent, jobs[n].accepts), ws', es')
  {
    var t, w := jobs[n], ws[|es|];
    if sent {
      var w' := SendIsStep(shop, w, t.n, t.id, t.accepts);
      ws', es' := RunSnoc(ws, es, P.Send(t.n, Accepted(shop.held[t.n], t.accepts)), w');
    } else {
      var w' := StoreIsStep(shop, w, t.n, t.id, t.accepts);
      assert !P.InUse(w, t.id);
      ws', es' := RunSnoc(ws, es, P.Store(t.n, t.id), w');
    }
    KnownGrows(jobs, n, w, ws'[|es'|]);
  }

  lemma ReloadGoesOn(jobs: seq<Job>, n: nat, shop: Shop, ws: seq<P.World>, es: seq<P.Event>)
    returns (ws': seq<P.World>, es': seq<P.Event>)
    requires n < |jobs| && jobs[n].Reload? && Behind(jobs, n, shop, ws, es)
    requires |shop.loaded| == 0 && shop.resent.None?
    ensures Behind(jobs, n + 1, Reloaded(shop, jobs[n].names), ws', es')
  {
    var w := ws[|es|];
    var found, w' := LoadIsStep(shop, w, jobs[n].names);
    ws', es' := RunSnoc(ws, es, P.Load(found), w');
    KnownGrows(jobs, n, w, w');
  }

  lemma RetryGoesOn(jobs: seq<Job>, n: nat, shop: Shop, ws: seq<P.World>, es: seq<P.Event>, done: bool)
    returns (ws': seq<P.World>, es': seq<P.Event>)
    requires n < |jobs| && jobs[n].Retry? && Behind(jobs, n, shop, ws, es) && |shop.loaded| > 0 && shop.resent.None?
    ensures Behind(jobs, n + 1, Retried(shop, done), ws', es')
  {
    var w := ws[|es|];
    assert w.todo[0] in w.todo;
    if done {
      var w' := ResendIsStep(shop, w);
      ws', es' := RunSnoc(ws, es, P.Resend, w');
    } else {
      var w' := SkipIsStep(shop, w);
      ws', es' := RunSnoc(ws, es, P.Skip, w');
    }
    KnownGrows(jobs, n, w, ws'[|es'|]);
  }

  lemma SettleGoesOn(jobs: seq<Job>, n: nat, shop: Shop, ws: seq<P.World>, es: seq<P.Event>)
    returns (ws': seq<P.World>, es': seq<P.Event>)
    requires n < |jobs| && jobs[n].Settle? && Behind(jobs, n, shop, ws, es) && shop.resent.Some?
    ensures Behind(jobs, n + 1, Settled(shop, jobs[n].removes), ws', es')
  {
    var w, removes := ws[|es|], jobs[n].removes;
    var w' := RemoveIsStep(shop, w, removes);
    ws', es' := RunSnoc(ws, es, if removes then P.Remove else P.Skip, w');
    KnownGrows(jobs, n, w, w');
  }

  /** A piece of work for which there is nothing to do. */
  lemma NothingToDo(jobs: seq<Job>, n: nat, shop: Shop, ws: seq<P.World>, es: seq<P.Event>)
    requires n < |jobs| && !jobs[n].Take? && Behind(jobs, n, shop, ws, es)
    ensures Behind(jobs, n + 1, shop, ws, es)
  {
    KnownGrows(jobs, n, ws[|es|], ws[|es|]);
  }

  ghost predicate Somewhere(shop: Shop, batch: seq<Record>) {
    || batch in shop.delivered
    || (exists id :: id in shop.files && shop.files[id] == batch)
    || (exists n :: n in shop.held && shop.held[n] == batch)
  }

  ghost predicate Earned(jobs: seq<Job>, shop: Shop, s: P.Save) {
    exists i :: 0 <= i < |jobs| && jobs[i].Take? && jobs[i].batch in shop.delivered
      && P.IsLargest(jobs[i].batch, s.source, s.offset)
  }

  /** Every batch taken was delivered, is in the cache or is with a worker, and every checkpoint
      is the largest offset of a batch that was delivered. */
  ghost predicate NothingLost(jobs: seq<Job>, shop: Shop) {
    && (forall i {:trigger jobs[i]} :: 0 <= i < |jobs| && jobs[i].Take? ==> Somewhere(shop, jobs[i].batch))
    && (forall s :: s in shop.saves ==> Earned(jobs, shop, s))
  }

  lemma KeptSomewhere(shop: Shop, w: P.World, n: nat)
    requires Mirrors(shop, w) && P.Conserved(w) && n < |w.log|
    ensures Somewhere(shop, w.log[n])
  {
    assert P.Kept(w, n);
    if n in w.inFlight {
      assert n in shop.held && shop.held[n] == w.log[n];
    } else if n !in w.sent {
      var id :| id in w.cache && w.cache[id] == n;
      assert id in shop.files && shop.files[id] == w.log[n];
    }
  }

  lemma BehindLosesNothing(jobs: seq<Job>, shop: Shop, ws: seq<P.World>, es: seq<P.Event>)
    requires Behind(jobs, |jobs|, shop, ws, es)
    ensures NothingLost(jobs, shop)
  {
    var w := ws[|es|];
    P.NothingIsLost(ws, es);
    BatchesHave(jobs, |jobs|);
    forall i {:trigger jobs[i]} | 0 <= i < |jobs| && jobs[i].Take? ensures Somewhere(shop, jobs[i].batch) {
      assert jobs[i].batch in w.log;
      var n: nat :| n < |w.log| && w.log[n] == jobs[i].batch;
      KeptSomewhere(shop, w, n);
    }
    forall s | s in shop.saves ensures Earned(jobs, shop, s) {
      assert P.Justified(w, s);
      var n: nat :| n in w.sent && n < |w.log| && P.IsLargest(w.log[n], s.source, s.offset);
      assert w.log[n] in Batches(jobs, |jobs|);
    }
  }

  lemma Opening(jobs: seq<Job>, shop: Shop) returns (ws: seq<P.World>, es: seq<P.Event>)
    requires shop.held == map[] && shop.taken == 0 && shop.files == map[] && |shop.delivered| == 0
    requires shop.saves == {} && |shop.loaded| == 0 && shop.resent.None?
    ensures Behind(jobs, 0, shop, ws, es)
  {
    ws, es := [P.World([], {}, {}, map[], [], None, {})], [];
  }

  /** Runs the jobs, in whatever order they come, with the pipeline's own code. */
  method Execute(jobs: seq<Job>, maxRetries: int, ghost horizon: nat)
    returns (cache: DiskCache, broker: Broker, store: CheckpointStore, held: map<nat, seq<Record>>, taken: nat,
             loaded: seq<Cached>, resent: Option<Cached>)
    requires JobsEnd(jobs, maxRetries, horizon) && DistinctIds(jobs)
    ensures NothingLost(jobs, Shop(held, taken, cache.files, broker.delivered, store.saves, loaded, resent))
  {
    cache := new DiskCache();
    broker := new Broker();
    store := new CheckpointStore();
    held, taken, loaded, resent := map[], 0, [], None;
    ghost var ws, es := Opening(jobs, Shop(held, taken, cache.files, broker.delivered, store.saves, loaded, resent));
    for i := 0 to |jobs|
      invariant fresh(cache) && fresh(broker) && fresh(store)
      invariant Behind(jobs, i, Shop(held, taken, cache.files, broker.delivered, store.saves, loaded, resent), ws, es)
    {
      ghost var shop := Shop(held, taken, cache.files, broker.delivered, store.saves, loaded, resent);
      match jobs[i]
      case Take(batch) =>
        held, taken := held[taken := batch], taken + 1;
        ws, es := TakeGoesOn(jobs, i, shop, ws, es);
      case Finish(n, out, id, accepts) =>
        if n in held {
          var sent := ProcessBatch(cache, broker, store, held[n], out, maxRetries, id, accepts, horizon);
          held := held - {n};
          ws, es := FinishGoesOn(jobs, i, shop, ws, es, sent);
        } else {
          NothingToDo(jobs, i, shop, ws, es);
        }
      case Reload(names) =>
        if |loaded| == 0 && resent.None? {
          loaded := LoadAll(cache, names);
          ws, es := ReloadGoesOn(jobs, i, shop, ws, es);
        } else {
          NothingToDo(jobs, i, shop, ws, es);
        }
      case Retry(out) =>
        if |loaded| > 0 && resent.None? {
          var done := SendAgain(broker, loaded[0], out, maxRetries, horizon);
          resent := if done then Some(loaded[0]) else None;
          loaded := loaded[1..];
          ws, es := RetryGoesOn(jobs, i, shop, ws, es, done);
        } else {
          NothingToDo(jobs, i, shop, ws, es);
        }
      case Settle(removes) =>
        if resent.Some? {
          if removes {
            cache.Remove(resent.value.id);
          }
          resent := None;
          ws, es := SettleGoesOn(jobs, i, shop, ws, es);
        } else {
          NothingToDo(jobs, i, shop, ws, es);
        }
    }
    BehindLosesNothing(jobs, Shop(held, taken, cache.files, broker.delivered, store.saves, loaded, resent), ws, es);
  }
}
