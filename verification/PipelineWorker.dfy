/** The pipeline's code: the retry loop, a worker's handling of one batch, and the replay loop
    over the disk cache. PipelineAgent shows that what they do to the cache, the broker and the
    checkpoint store are steps of Pipeline, so that what holds in its runs holds for the code. */
module PipelineWorker {
  import opened Prelude
  import opened Plugins
  import Pipeline

  /** What the retry loop meets outside: whether attempt `i` succeeds, and whether the context
      is still alive before attempt `i` and after the wait that follows it. */
  datatype Outside = Outside(succeeds: nat -> bool, before: nat -> bool, after: nat -> bool)

  datatype Outcome = Sent(attempts: nat) | Cancelled(attempts: nat) | Exhausted(attempts: nat)

  predicate Allowed(maxRetries: int, attempt: nat) {
    maxRetries == 0 || attempt <= maxRetries
  }

  /** Attempt `k` is reached: all before it were allowed, failed, and were not cut short. */
  ghost predicate Reached(out: Outside, maxRetries: int, k: nat) {
    forall j: nat :: j < k ==> Allowed(maxRetries, j) && out.before(j) && !out.succeeds(j) && out.after(j)
  }

  /** How the loop ends: at the first attempt that is not allowed, finds the context ended,
      succeeds, or sees it end while waiting. */
  ghost predicate EndsAt(out: Outside, maxRetries: int, r: Outcome) {
    match r
    case Sent(n) =>
      n > 0 && Reached(out, maxRetries, n - 1) && Allowed(maxRetries, n - 1) && out.before(n - 1) && out.succeeds(n - 1)
    case Exhausted(n) =>
      Reached(out, maxRetries, n) && !Allowed(maxRetries, n)
    case Cancelled(n) =>
      || (Reached(out, maxRetries, n) && Allowed(maxRetries, n) && !out.before(n))
      || (n > 0 && Reached(out, maxRetries, n - 1) && Allowed(maxRetries, n - 1) && out.before(n - 1)
          && !out.succeeds(n - 1) && !out.after(n - 1))
  }

  /** With unlimited retries the loop ends only if an attempt succeeds or the context ends, no
      later than attempt `horizon`. */
  ghost predicate Ends(out: Outside, maxRetries: int, horizon: nat) {
    maxRetries == 0 ==> !out.before(horizon) || out.succeeds(horizon)
  }

  /** Where batches are sent to. A failed attempt delivers nothing here. */
  class Broker {
    var delivered: seq<seq<Record>>

    constructor ()
      ensures |delivered| == 0
    {
      delivered := [];
    }

    method Send(records: seq<Record>, succeeds: bool) returns (ok: bool)
      modifies this
      ensures ok == succeeds
      ensures delivered == if ok then old(delivered) + [records] else old(delivered)
    {
      if succeeds {
        delivered := delivered + [records];
      }
      ok := succeeds;
    }
  }

  /** The retry loop around sending one batch. */
  method Do(broker: Broker, records: seq<Record>, out: Outside, maxRetries: int,
            ghost horizon: nat) returns (r: Outcome)
    requires Ends(out, maxRetries, horizon)
    modifies broker
    ensures EndsAt(out, maxRetries, r)
    ensures broker.delivered == if r.Sent? then old(broker.delivered) + [records] else old(broker.delivered)
  {
    var attempt := 0;
    while maxRetries == 0 || attempt <= maxRetries
      invariant Reached(out, maxRetries, attempt)
      invariant maxRetries == 0 ==> attempt <= horizon
      invariant broker.delivered == old(broker.delivered)
      decreases if maxRetries == 0 then horizon - attempt else maxRetries - attempt
    {
      if !out.before(attempt) {
        return Cancelled(attempt);
      }
      var ok := broker.Send(records, out.succeeds(attempt));
      if ok {
        return Sent(attempt + 1);
      }
      if !out.after(attempt) {
        return Cancelled(attempt + 1);
      }
      attempt := attempt + 1;
    }
    r := Exhausted(attempt);
  }

  /** The loop has only one way to end. */
  lemma EndIsUnique(out: Outside, maxRetries: int, r: Outcome, s: Outcome)
    requires EndsAt(out, maxRetries, r) && EndsAt(out, maxRetries, s)
    ensures r == s
  {
  }

  /** Some allowed attempt succeeds before the context ends. */
  ghost predicate Sends(out: Outside, maxRetries: int) {
    exists k: nat :: Reached(out, maxRetries, k) && Allowed(maxRetries, k) && out.before(k) && out.succeeds(k)
  }

  /** Sending is reported exactly when some allowed attempt succeeds before the context ends. */
  lemma SentIff(out: Outside, maxRetries: int, r: Outcome)
    requires EndsAt(out, maxRetries, r)
    ensures r.Sent? <==> Sends(out, maxRetries)
  {
    if r.Sent? {
      var k: nat := r.attempts - 1;
      assert Reached(out, maxRetries, k);
    }
    if k: nat :| Reached(out, maxRetries, k) && Allowed(maxRetries, k) && out.before(k) && out.succeeds(k) {
      assert EndsAt(out, maxRetries, Sent(k + 1));
      EndIsUnique(out, maxRetries, r, Sent(k + 1));
    }
  }

  /** Attempt `k` is the one that succeeds: it is among the first one and the retries, all of which
      there can be without a limit; the context is alive before it and before and after all that
      came before, and those failed. */
  predicate SucceedsAt(out: Outside, maxRetries: int, k: nat) {
    && (maxRetries == 0 || k <= maxRetries) && out.succeeds(k) && out.before(k)
    && forall j :: 0 <= j < k ==> !out.succeeds(j) && out.before(j) && out.after(j)
  }

  lemma SendsIff(out: Outside, maxRetries: int)
    ensures Sends(out, maxRetries) <==> exists k :: SucceedsAt(out, maxRetries, k)
  {
    if k: nat :| Reached(out, maxRetries, k) && Allowed(maxRetries, k) && out.before(k) && out.succeeds(k) {
      assert SucceedsAt(out, maxRetries, k);
    }
    if k: nat :| SucceedsAt(out, maxRetries, k) {
      assert Reached(out, maxRetries, k);
    }
  }

  /** Giving up takes the first attempt and all retries. */
  lemma ExhaustedIs(out: Outside, maxRetries: int, n: nat)
    requires EndsAt(out, maxRetries, Exhausted(n))
    ensures maxRetries != 0 && n == Max(0, maxRetries + 1)
    ensures forall j :: 0 <= j < n ==> !out.succeeds(j) && out.before(j) && out.after(j)
  {
    if n > 0 {
      var last: nat := n - 1;
      assert Allowed(maxRetries, last);
    }
  }

  // ---- Checkpoints ----

  method LatestOffsets(batch: seq<Record>) returns (latest: map<string, int>)
    ensures latest == Pipeline.Latest(batch) && Pipeline.IsLatest(batch, latest)
  {
    latest := map[];
    assert |batch[..0]| == 0;
    for i := 0 to |batch|
      invariant latest == Pipeline.Latest(batch[..i])
    {
      assert batch[..i + 1][..i] == batch[..i];
      var r := batch[i];
      if r.source == "" {
        continue;
      }
      var offset := Pipeline.CheckpointOffset(r);
      if r.source !in latest || offset > latest[r.source] {
        latest := latest[r.source := offset];
      }
    }
    assert batch[..|batch|] == batch;
    Pipeline.LatestIsLargest(batch);
  }

  /** The checkpoints saved so far; `accepts` is which sources the store can save now. */
  class CheckpointStore {
    var saves: set<Pipeline.Save>

    constructor ()
      ensures saves == {}
    {
      saves := {};
    }

    method Save(source: string, offset: int, accepts: bool)
      modifies this
      ensures saves == if accepts then old(saves) + {Pipeline.Save(source, offset)} else old(saves)
    {
      if accepts {
        saves := saves + {Pipeline.Save(source, offset)};
      }
    }
  }

  function Accepted(batch: seq<Record>, accepts: string -> bool): set<string> {
    set s | s in Pipeline.Latest(batch) && accepts(s)
  }

  /** What is saved when only the sources in `rest` are left. */
  function SavedBut(latest: map<string, int>, accepts: string -> bool, rest: set<string>): set<Pipeline.Save> {
    set s | s in latest && s !in rest && accepts(s) :: Pipeline.Save(s, latest[s])
  }

  lemma SavedOne(before: set<Pipeline.Save>, latest: map<string, int>, accepts: string -> bool, rest: set<string>,
                 s: string)
    requires s in rest && s in latest
    ensures before + SavedBut(latest, accepts, rest - {s}) ==
      if accepts(s) then before + SavedBut(latest, accepts, rest) + {Pipeline.Save(s, latest[s])}
      else before + SavedBut(latest, accepts, rest)
  {
    var more := SavedBut(latest, accepts, rest - {s});
    if accepts(s) {
      assert more == SavedBut(latest, accepts, rest) + {Pipeline.Save(s, latest[s])};
    } else {
      assert more == SavedBut(latest, accepts, rest);
    }
  }

  lemma SavedAll(before: set<Pipeline.Save>, batch: seq<Record>, accepts: string -> bool)
    ensures SavedBut(Pipeline.Latest(batch), accepts, {}) == Pipeline.Saves(batch, Accepted(batch, accepts))
    ensures before + SavedBut(Pipeline.Latest(batch), accepts, Pipeline.Latest(batch).Keys) == before
  {
  }

  /** Saves for a batch, in whatever order the map is gone through; a failed save is passed over. */
  method SaveAll(store: CheckpointStore, batch: seq<Record>, accepts: string -> bool)
    modifies store
    ensures store.saves == old(store.saves) + Pipeline.Saves(batch, Accepted(batch, accepts))
  {
    var latest := LatestOffsets(batch);
    var rest := latest.Keys;
    ghost var before := store.saves;
    SavedAll(before, batch, accepts);
    while rest != {}
      invariant rest <= latest.Keys
      invariant store.saves == before + SavedBut(latest, accepts, rest)
      decreases |rest|
    {
      var source :| source in rest;
      SavedOne(before, latest, accepts, rest, source);
      store.Save(source, latest[source], accepts(source));
      rest := rest - {source};
    }
  }

  // ---- A worker ----

  /** The cache directory: one file for each identifier. */
  class DiskCache {
    var files: map<string, seq<Record>>

    constructor ()
      ensures files == map[]
    {
      files := map[];
    }

    method Store(id: string, records: seq<Record>)
      modifies this
      ensures files == old(files)[id := records]
    {
      files := files[id := records];
    }

    method Remove(id: string)
      modifies this
      ensures files == old(files) - {id}
    {
      files := files - {id};
    }
  }

  /** One batch that passed the plugins. `id` is the identifier drawn if it has to be cached, and
      `accepts` is what the checkpoint store can save. Cache writes succeed. */
  method ProcessBatch(cache: DiskCache, broker: Broker, store: CheckpointStore, processed: seq<Record>,
                      out: Outside, maxRetries: int, id: string, accepts: string -> bool, ghost horizon: nat)
    returns (sent: bool)
    requires Ends(out, maxRetries, horizon)
    modifies cache, broker, store
    ensures sent <==> Sends(out, maxRetries)
    ensures broker.delivered == if sent then old(broker.delivered) + [processed] else old(broker.delivered)
    ensures cache.files == if sent then old(cache.files) else old(cache.files)[id := processed]
    ensures store.saves ==
      if sent then old(store.saves) + Pipeline.Saves(processed, Accepted(processed, accepts)) else old(store.saves)
  {
    var r := Do(broker, processed, out, maxRetries, horizon);
    SentIff(out, maxRetries, r);
    if !r.Sent? {
      cache.Store(id, processed);
      return false;
    }
    SaveAll(store, processed, accepts);
    sent := true;
  }

  // ---- The replay loop ----

  /** A cached batch as it was loaded. */
  datatype Cached = Cached(id: string, records: seq<Record>)

  function Listed(files: map<string, seq<Record>>, names: seq<string>): (r: seq<Cached>)
    ensures forall x :: x in r ==> x.id in files && files[x.id] == x.records
  {
    if |names| == 0 then []
    else (if names[0] in files then [Cached(names[0], files[names[0]])] else []) + Listed(files, names[1..])
  }

  /** Every file of the listing is among them, whole. */
  lemma {:induction false} ListedHas(files: map<string, seq<Record>>, names: seq<string>, id: string)
    requires id in files
    ensures Cached(id, files[id]) in Listed(files, names) <==> id in names
  {
    if |names| > 0 {
      ListedHas(files, names[1..], id);
    }
  }

  /** The cache files, in the order in which the directory lists them. */
  method LoadAll(cache: DiskCache, names: seq<string>) returns (found: seq<Cached>)
    ensures found == Listed(cache.files, names)
    ensures forall id :: id in names && id in cache.files ==> Cached(id, cache.files[id]) in found
  {
    found := [];
    assert names[0..] == names;
    for i := 0 to |names|
      invariant Listed(cache.files, names) == found + Listed(cache.files, names[i..])
    {
      assert names[i..][1..] == names[i + 1..];
      if names[i] in cache.files {
        found := found + [Cached(names[i], cache.files[names[i]])];
      }
    }
    assert |names[|names|..]| == 0;
    forall id | id in names && id in cache.files ensures Cached(id, cache.files[id]) in found {
      ListedHas(cache.files, names, id);
    }
  }

  /** Sends a cached batch again. */
  method SendAgain(broker: Broker, x: Cached, out: Outside, maxRetries: int, ghost horizon: nat) returns (done: bool)
    requires Ends(out, maxRetries, horizon)
    modifies broker
    ensures done <==> Sends(out, maxRetries)
    ensures broker.delivered == if done then old(broker.delivered) + [x.records] else old(broker.delivered)
  {
    var r := Do(broker, x.records, out, maxRetries, horizon);
    SentIff(out, maxRetries, r);
    done := r.Sent?;
  }

  /** One batch of the replay. `removes` is whether its file can be deleted. */
  method ReplayOne(cache: DiskCache, broker: Broker, x: Cached, out: Outside, removes: bool, maxRetries: int,
                   ghost horizon: nat)
    returns (done: bool)
    requires Ends(out, maxRetries, horizon)
    modifies cache, broker
    ensures done <==> Sends(out, maxRetries)
    ensures broker.delivered == if done then old(broker.delivered) + [x.records] else old(broker.delivered)
    ensures cache.files == if done && removes then old(cache.files) - {x.id} else old(cache.files)
  {
    done := SendAgain(broker, x, out, maxRetries, horizon);
    if done && removes {
      cache.Remove(x.id);
    }
  }

  /** Every resend comes to an end. */
  ghost predicate AllEnd(found: seq<Cached>, out: string -> Outside, maxRetries: int, horizon: nat) {
    forall i {:trigger found[i]} :: 0 <= i < |found| ==> Ends(out(found[i].id), maxRetries, horizon)
  }

  lemma {:induction false} ListedEnd(files: map<string, seq<Record>>, names: seq<string>, out: string -> Outside,
                                     maxRetries: int, horizon: nat)
    requires forall id :: id in names ==> Ends(out(id), maxRetries, horizon)
    ensures AllEnd(Listed(files, names), out, maxRetries, horizon)
  {
    if |names| > 0 {
      assert names[0] in names;
      ListedEnd(files, names[1..], out, maxRetries, horizon);
    }
  }

  /** The batches a replay sends: those that can be, up to the end of the context. */
  ghost function Resent(found: seq<Cached>, out: string -> Outside, ended: string -> bool,
                        maxRetries: int): seq<Cached> {
    if |found| == 0 || ended(found[0].id) then []
    else (if Sends(out(found[0].id), maxRetries) then [found[0]] else []) + Resent(found[1..], out, ended, maxRetries)
  }

  function Gone(sent: seq<Cached>, removes: string -> bool): set<string> {
    set x | x in sent && removes(x.id) :: x.id
  }

  function Contents(sent: seq<Cached>): (r: seq<seq<Record>>)
    ensures |r| == |sent|
  {
    seq(|sent|, i requires 0 <= i < |sent| => sent[i].records)
  }

  /** What is left of the files after one more batch was sent, and what was delivered. */
  lemma OneMoreSent(files: map<string, seq<Record>>, delivered: seq<seq<Record>>, sent: seq<Cached>, x: Cached,
                    removes: string -> bool)
    ensures files - Gone(sent + [x], removes) ==
      if removes(x.id) then files - Gone(sent, removes) - {x.id} else files - Gone(sent, removes)
    ensures delivered + Contents(sent + [x]) == delivered + Contents(sent) + [x.records]
  {
    if removes(x.id) {
      assert Gone(sent + [x], removes) == Gone(sent, removes) + {x.id};
    } else {
      assert Gone(sent + [x], removes) == Gone(sent, removes);
    }
    assert Contents(sent + [x]) == Contents(sent) + [x.records];
  }

  lemma NothingSent(files: map<string, seq<Record>>, delivered: seq<seq<Record>>, sent: seq<Cached>,
                    removes: string -> bool)
    requires |sent| == 0
    ensures files - Gone(sent, removes) == files && delivered + Contents(sent) == delivered
  {
  }

  lemma ReplayTurn(found: seq<Cached>, out: string -> Outside, ended: string -> bool, maxRetries: int, i: nat,
                   sent: seq<Cached>)
    requires i < |found|
    ensures var x, all := found[i], sent + Resent(found[i..], out, ended, maxRetries);
      && (ended(x.id) ==> all == sent)
      && (!ended(x.id) && Sends(out(x.id), maxRetries) ==>
            all == (sent + [x]) + Resent(found[i + 1..], out, ended, maxRetries))
      && (!ended(x.id) && !Sends(out(x.id), maxRetries) ==>
            all == sent + Resent(found[i + 1..], out, ended, maxRetries))
  {
    assert found[i..][1..] == found[i + 1..];
  }

  /** The file listed `i`-th is sent again: the context has not ended before it or one listed
      earlier, and some attempt succeeds. */
  ghost predicate IsResent(files: map<string, seq<Record>>, names: seq<string>, out: string -> Outside,
                           ended: string -> bool, maxRetries: int, i: nat) {
    && i < |names| && names[i] in files && Sends(out(names[i]), maxRetries)
    && forall j :: 0 <= j <= i && names[j] in files ==> !ended(names[j])
  }

  /** Exactly the files at these places of the listing are sent again, whole and in that order. */
  ghost predicate IsReplay(files: map<string, seq<Record>>, names: seq<string>, out: string -> Outside,
                           ended: string -> bool, maxRetries: int, places: seq<nat>, sent: seq<Cached>) {
    && |places| == |sent|
    && (forall k, l :: 0 <= k < l < |places| ==> places[k] < places[l])
    && (forall i :: i in places <==> IsResent(files, names, out, ended, maxRetries, i))
    && forall k :: 0 <= k < |sent| ==>
         places[k] < |names| && names[places[k]] in files
         && sent[k] == Cached(names[places[k]], files[names[places[k]]])
  }

  /** The places of a listing, seen from the one before it. */
  function Later(places: seq<nat>): (r: seq<nat>)
    ensures |r| == |places| && forall k :: 0 <= k < |r| ==> r[k] == places[k] + 1
  {
    seq(|places|, k requires 0 <= k < |places| => places[k] + 1)
  }

  lemma ResentLater(files: map<string, seq<Record>>, names: seq<string>, out: string -> Outside,
                    ended: string -> bool, maxRetries: int, i: nat)
    requires |names| > 0 && (names[0] in files ==> !ended(names[0]))
    ensures IsResent(files, names, out, ended, maxRetries, i + 1) <==>
      IsResent(files, names[1..], out, ended, maxRetries, i)
  {
    var rest := names[1..];
    assert forall j :: 0 <= j < |rest| ==> rest[j] == names[j + 1];
    if IsResent(files, rest, out, ended, maxRetries, i) {
      forall j | 0 <= j <= i + 1 && names[j] in files ensures !ended(names[j]) {
        if j > 0 {
          assert rest[j - 1] == names[j];
        }
      }
    }
  }

  lemma LaterHas(places: seq<nat>, i: nat)
    ensures i in Later(places) <==> i > 0 && (i - 1) in places
  {
    if i > 0 && (i - 1) in places {
      var k :| 0 <= k < |places| && places[k] == i - 1;
      assert Later(places)[k] == i;
    }
  }

  lemma NoneIsResent(files: map<string, seq<Record>>, names: seq<string>, out: string -> Outside,
                     ended: string -> bool, maxRetries: int)
    requires |names| > 0 ==> names[0] in files && ended(names[0])
    ensures IsReplay(files, names, out, ended, maxRetries, [], [])
  {
  }

  /** One file of the listing, and the others. */
  lemma OneMoreListed(files: map<string, seq<Record>>, names: seq<string>, out: string -> Outside,
                      ended: string -> bool, maxRetries: int, rest: seq<nat>, sent: seq<Cached>, places: seq<nat>)
    requires |names| > 0 && (names[0] in files ==> !ended(names[0]))
    requires IsReplay(files, names[1..], out, ended, maxRetries, rest, sent)
    requires var first := names[0] in files && Sends(out(names[0]), maxRetries);
      places == (if first then [0] else []) + Later(rest)
    ensures var first := names[0] in files && Sends(out(names[0]), maxRetries);
      IsReplay(files, names, out, ended, maxRetries, places,
               (if first then [Cached(names[0], files[names[0]])] else []) + sent)
  {
    forall i: nat ensures i in places <==> IsResent(files, names, out, ended, maxRetries, i) {
      LaterHas(rest, i);
      if i > 0 {
        ResentLater(files, names, out, ended, maxRetries, i - 1);
      }
    }
  }

  lemma ResentStep(files: map<string, seq<Record>>, names: seq<string>, out: string -> Outside, ended: string -> bool,
                   maxRetries: int)
    requires |names| > 0
    ensures var all, rest := Resent(Listed(files, names), out, ended, maxRetries),
                             Resent(Listed(files, names[1..]), out, ended, maxRetries);
      if names[0] !in files then all == rest
      else if ended(names[0]) then |all| == 0
      else all == (if Sends(out(names[0]), maxRetries) then [Cached(names[0], files[names[0]])] else []) + rest
  {
    var found, rest := Listed(files, names), Listed(files, names[1..]);
    if names[0] in files {
      assert found == [Cached(names[0], files[names[0]])] + rest && found[1..] == rest;
    } else {
      assert found == rest;
    }
  }

  lemma {:induction false} ResentIsReplay(files: map<string, seq<Record>>, names: seq<string>, out: string -> Outside,
                                          ended: string -> bool, maxRetries: int) returns (places: seq<nat>)
    ensures IsReplay(files, names, out, ended, maxRetries, places,
                     Resent(Listed(files, names), out, ended, maxRetries))
  {
    var sent := Resent(Listed(files, names), out, ended, maxRetries);
    if |names| > 0 {
      ResentStep(files, names, out, ended, maxRetries);
    }
    if |names| == 0 || (names[0] in files && ended(names[0])) {
      places := [];
      NoneIsResent(files, names, out, ended, maxRetries);
      assert sent == [];
    } else {
      var rest := ResentIsReplay(files, names[1..], out, ended, maxRetries);
      var tail := Resent(Listed(files, names[1..]), out, ended, maxRetries);
      var first := names[0] in files && Sends(out(names[0]), maxRetries);
      places := (if first then [0] else []) + Later(rest);
      OneMoreListed(files, names, out, ended, maxRetries, rest, tail, places);
      assert sent == (if first then [Cached(names[0], files[names[0]])] else []) + tail;
    }
  }

  ghost predicate Replays(files: map<string, seq<Record>>, names: seq<string>, out: string -> Outside,
                          ended: string -> bool, maxRetries: int, sent: seq<Cached>) {
    exists places :: IsReplay(files, names, out, ended, maxRetries, places, sent)
  }

  lemma ResentReplays(files: map<string, seq<Record>>, names: seq<string>, out: string -> Outside,
                      ended: string -> bool, maxRetries: int)
    ensures Replays(files, names, out, ended, maxRetries, Resent(Listed(files, names), out, ended, maxRetries))
  {
    var places := ResentIsReplay(files, names, out, ended, maxRetries);
  }

  /** The replay of everything that is cached: `names` is the directory listing, `out` what each
      resend meets, `ended` whether the context has ended before a batch, and `removes` whether
      its file can be deleted. Every file that goes was sent first. */
  method ReplayCache(cache: DiskCache, broker: Broker, names: seq<string>, out: string -> Outside,
                     ended: string -> bool, removes: string -> bool, maxRetries: int, ghost horizon: nat)
    returns (sent: seq<Cached>)
    requires forall id :: id in names ==> Ends(out(id), maxRetries, horizon)
    modifies cache, broker
    ensures sent == Resent(Listed(old(cache.files), names), out, ended, maxRetries)
    ensures Replays(old(cache.files), names, out, ended, maxRetries, sent)
    ensures cache.files == old(cache.files) - Gone(sent, removes)
    ensures broker.delivered == old(broker.delivered) + Contents(sent)
  {
    var found := LoadAll(cache, names);
    ResentReplays(cache.files, names, out, ended, maxRetries);
    ListedEnd(cache.files, names, out, maxRetries, horizon);
    ghost var files, delivered := cache.files, broker.delivered;
    sent := [];
    NothingSent(files, delivered, sent, removes);
    assert found[0..] == found;
    for i := 0 to |found|
      invariant Resent(found, out, ended, maxRetries) == sent + Resent(found[i..], out, ended, maxRetries)
      invariant cache.files == files - Gone(sent, removes) && broker.delivered == delivered + Contents(sent)
    {
      var x := found[i];
      ReplayTurn(found, out, ended, maxRetries, i, sent);
      if ended(x.id) {
        return;
      }
      var done := ReplayOne(cache, broker, x, out(x.id), removes(x.id), maxRetries, horizon);
      if done {
        OneMoreSent(files, delivered, sent, x, removes);
        sent := sent + [x];
      }
    }
    assert |found[|found|..]| == 0;
  }

  // ---- What a replay leaves ----

  /** A file goes exactly when it was sent again and can be removed. */
  lemma ReplayLeaves(files: map<string, seq<Record>>, names: seq<string>, out: string -> Outside,
                     ended: string -> bool, removes: string -> bool, maxRetries: int, sent: seq<Cached>,
                     after: map<string, seq<Record>>, id: string)
    requires Replays(files, names, out, ended, maxRetries, sent) && after == files - Gone(sent, removes)
    requires id in files
    ensures id !in after <==>
      removes(id) && exists i: nat :: IsResent(files, names, out, ended, maxRetries, i) && names[i] == id
    ensures id in after ==> after[id] == files[id]
  {
    var places :| IsReplay(files, names, out, ended, maxRetries, places, sent);
    if id in Gone(sent, removes) {
      var k :| 0 <= k < |sent| && sent[k].id == id;
      assert places[k] in places && names[places[k]] == id;
    }
    if i: nat :| IsResent(files, names, out, ended, maxRetries, i) && names[i] == id {
      var k :| 0 <= k < |places| && places[k] == i;
      assert sent[k] in sent && sent[k].id == id;
    }
  }

  /** When everything can be sent and removed and the context lives on, one replay of a complete
      listing leaves the cache empty. */
  lemma ReplayEmpties(files: map<string, seq<Record>>, names: seq<string>, out: string -> Outside,
                      ended: string -> bool, removes: string -> bool, maxRetries: int, sent: seq<Cached>)
    requires Replays(files, names, out, ended, maxRetries, sent)
    requires forall id :: id in files ==> id in names && Sends(out(id), maxRetries) && !ended(id) && removes(id)
    ensures files - Gone(sent, removes) == map[]
  {
    forall id | id in files ensures id !in files - Gone(sent, removes) {
      var i :| 0 <= i < |names| && names[i] == id;
      assert IsResent(files, names, out, ended, maxRetries, i);
      ReplayLeaves(files, names, out, ended, removes, maxRetries, sent, files - Gone(sent, removes), id);
    }
  }
}
