/** What the limiter guarantees over whole runs: it decides as the full history would, no window
    holds more admissions than the limit, and Retry-After is exact (section 10.2.3 of RFC 9110). */
module RateLimitRuns {
  import opened Prelude
  import opened Runs
  import opened RateLimit

  datatype Step = Step(request: Request, outcome: Outcome)

  ghost predicate Moves(c: Config, ruleOf: string -> Rule, w: World, e: Step, w': World) {
    e.request.key != [] && Next(c, ruleOf, w, e.request, e.outcome, w')
  }

  ghost function Transition(c: Config, ruleOf: string -> Rule): (World, Step, World) -> bool {
    (w, e, w') => Moves(c, ruleOf, w, e, w')
  }

  ghost function InitWorld(clock: int): World {
    World(RateLimit.State(map[], None), clock, map[], map[], {})
  }

  ghost predicate Run(c: Config, ruleOf: string -> Rule, clock: int, ws: seq<World>, es: seq<Step>) {
    Fits(c, ruleOf) && Steps(Transition(c, ruleOf), ws, es) && ws[0] == InitWorld(clock)
  }

  lemma GoodThroughout(c: Config, ruleOf: string -> Rule, ws: seq<World>, es: seq<Step>)
    requires Fits(c, ruleOf) && Steps(Transition(c, ruleOf), ws, es) && Good(c, ruleOf, ws[0])
    ensures forall i :: 0 <= i < |ws| ==> Good(c, ruleOf, ws[i])
  {
    var next := Transition(c, ruleOf);
    forall w, e: Step, w' | Good(c, ruleOf, w) && next(w, e, w') ensures Good(c, ruleOf, w') {
      StepKeepsGood(c, ruleOf, w, e.request, e.outcome, w');
    }
    Invariant(next, ws, es, w => Good(c, ruleOf, w));
    assert forall i :: 0 <= i < |ws| ==> (w => Good(c, ruleOf, w))(ws[i]);
  }

  lemma InitGood(c: Config, ruleOf: string -> Rule, clock: int)
    ensures Good(c, ruleOf, InitWorld(clock))
  {
    var w := InitWorld(clock);
    forall k ensures KeyInv(ruleOf, w, k) {}
  }

  /** The table never holds more keys than it may, evictions included. */
  lemma TableStaysBounded(c: Config, ruleOf: string -> Rule, clock: int, ws: seq<World>,
                          es: seq<Step>, i: nat)
    requires Run(c, ruleOf, clock, ws, es) && i < |ws| && c.maxEntries > 0
    ensures |ws[i].st.entries| <= c.maxEntries
  {
    InitGood(c, ruleOf, clock);
    GoodThroughout(c, ruleOf, ws, es);
  }

  ghost predicate NeverEvicted(ws: seq<World>, k: string) {
    forall i :: 0 <= i < |ws| ==> k !in ws[i].evicted
  }

  lemma SinceIsAll(c: Config, ruleOf: string -> Rule, clock: int, ws: seq<World>, es: seq<Step>,
                   k: string)
    requires Run(c, ruleOf, clock, ws, es) && NeverEvicted(ws, k)
    ensures forall i :: 0 <= i < |ws| ==> Times(ws[i].since, k) == Times(ws[i].all, k)
  {
    var next := (w, e: Step, w') => Transition(c, ruleOf)(w, e, w') && k !in w'.evicted;
    var inv := (w: World) => Times(w.since, k) == Times(w.all, k);
    forall i | 0 <= i < |es| ensures next(ws[i], es[i], ws[i + 1]) {
      assert Transition(c, ruleOf)(ws[i], es[i], ws[i + 1]);
    }
    Invariant(next, ws, es, inv);
    assert forall i :: 0 <= i < |ws| ==> inv(ws[i]);
  }

  /** For a key that is not evicted, a request is admitted exactly when fewer than `limit` of
      all earlier requests for it were admitted in the window before it. */
  lemma RefinesFullHistory(c: Config, ruleOf: string -> Rule, clock: int, ws: seq<World>,
                           es: seq<Step>, i: nat)
    requires Run(c, ruleOf, clock, ws, es) && i < |es|
    requires ruleOf(es[i].request.key).Active() && NeverEvicted(ws, es[i].request.key)
    ensures var r := es[i].request;
      es[i].outcome.Allowed? <==> Admissible(ruleOf(r.key), Times(ws[i].all, r.key), r.now)
  {
    InitGood(c, ruleOf, clock);
    GoodThroughout(c, ruleOf, ws, es);
    SinceIsAll(c, ruleOf, clock, ws, es, es[i].request.key);
    assert Transition(c, ruleOf)(ws[i], es[i], ws[i + 1]);
    StepDecides(c, ruleOf, ws[i], es[i].request, es[i].outcome, ws[i + 1]);
  }

  // ---- No window is overfull ----

  lemma {:induction false} WithinIsDifference(h: seq<int>, from: int, to: int)
    requires from <= to
    ensures CountWithin(h, from, to) == CountAfter(h, from) - CountAfter(h, to)
  {
    if h != [] {
      WithinIsDifference(h[1..], from, to);
    }
  }

  lemma {:induction false} FreshHead(h: seq<int>, cutoff: int)
    requires Fresh(h, cutoff) != []
    ensures Fresh(h, cutoff)[0] == h[|h| - |Fresh(h, cutoff)|]
  {
    if h[0] <= cutoff {
      FreshHead(h[1..], cutoff);
    }
  }

  lemma CrowdedIsNotSpaced(rule: Rule, h: seq<int>, t: int)
    requires rule.Active() && |Fresh(h, t)| - |Fresh(h, t + rule.window)| > rule.limit
    ensures !Spaced(rule, h)
  {
    var i, j := |h| - |Fresh(h, t)|, |h| - |Fresh(h, t + rule.window)| - 1;
    FreshHead(h, t);
    DroppedAreOld(h, t + rule.window, j);
    assert h[j] - h[i] < rule.window && j - i >= rule.limit;
  }

  lemma SpacedMeansFew(rule: Rule, h: seq<int>, t: int)
    requires rule.Active() && Sorted(h) && Spaced(rule, h)
    ensures CountWithin(h, t, t + rule.window) <= rule.limit
  {
    WithinIsDifference(h, t, t + rule.window);
    FreshCounts(h, t);
    FreshCounts(h, t + rule.window);
    if |Fresh(h, t)| - |Fresh(h, t + rule.window)| > rule.limit {
      CrowdedIsNotSpaced(rule, h, t);
    }
  }

  lemma MovesAt(c: Config, ruleOf: string -> Rule, ws: seq<World>, es: seq<Step>, i: nat)
    requires Fits(c, ruleOf) && Steps(Transition(c, ruleOf), ws, es) && Good(c, ruleOf, ws[0]) && i < |es|
    ensures Good(c, ruleOf, ws[i]) && Moves(c, ruleOf, ws[i], es[i], ws[i + 1])
  {
    var next := Transition(c, ruleOf);
    GoodThroughout(c, ruleOf, ws, es);
    assert next(ws[i], es[i], ws[i + 1]);
  }

  /** How often the key was evicted. */
  ghost function Evictions(ws: seq<World>, k: string): nat {
    if |ws| == 0 then 0 else Evictions(ws[..|ws| - 1], k) + if k in ws[|ws| - 1].evicted then 1 else 0
  }

  lemma {:induction false} CountWithinSnoc(h: seq<int>, x: int, from: int, to: int)
    ensures CountWithin(h + [x], from, to) == CountWithin(h, from, to) + if from < x <= to then 1 else 0
  {
    if |h| == 0 {
      assert h + [x] == [x];
      assert |[x][1..]| == 0;
    } else {
      CountWithinSnoc(h[1..], x, from, to);
      assert (h + [x])[1..] == h[1..] + [x];
    }
  }

  /** The admissions in a window, but for those since the last eviction. */
  ghost function Forgotten(w: World, k: string, from: int, to: int): int {
    CountWithin(Times(w.all, k), from, to) - CountWithin(Times(w.since, k), from, to)
  }

  /** An eviction forgets the admissions since the last one; a step without one forgets none. */
  lemma StepForgets(c: Config, ruleOf: string -> Rule, w: World, e: Step, w': World, k: string,
                    from: int, to: int)
    requires Moves(c, ruleOf, w, e, w')
    ensures Forgotten(w', k, from, to) ==
      Forgotten(w, k, from, to) + if k in w'.evicted then CountWithin(Times(w.since, k), from, to) else 0
  {
    var key, now := e.request.key, e.request.now;
    if e.outcome.Allowed? && ruleOf(key).Active() && key == k {
      CountWithinSnoc(Times(w.all, k), now, from, to);
      CountWithinSnoc(Times(w.since - w'.evicted, k), now, from, to);
    }
  }

  lemma SinceIsFew(c: Config, ruleOf: string -> Rule, w: World, k: string, t: int)
    requires Good(c, ruleOf, w) && ruleOf(k).Active()
    ensures CountWithin(Times(w.since, k), t, t + ruleOf(k).window) <= ruleOf(k).limit
  {
    assert KeyInv(ruleOf, w, k);
    SpacedMeansFew(ruleOf(k), Times(w.since, k), t);
  }

  lemma OneMoreTime(n: nat, limit: int)
    ensures (n + 1) * limit == n * limit + limit && (n + 0) * limit == n * limit
  {
  }

  lemma StepBound(c: Config, ruleOf: string -> Rule, w: World, e: Step, w': World, k: string,
                  t: int, n: nat)
    requires Fits(c, ruleOf) && Good(c, ruleOf, w) && Moves(c, ruleOf, w, e, w') && ruleOf(k).Active()
    requires Forgotten(w, k, t, t + ruleOf(k).window) <= n * ruleOf(k).limit
    ensures Forgotten(w', k, t, t + ruleOf(k).window) <= (n + if k in w'.evicted then 1 else 0) * ruleOf(k).limit
  {
    StepForgets(c, ruleOf, w, e, w', k, t, t + ruleOf(k).window);
    SinceIsFew(c, ruleOf, w, k, t);
    OneMoreTime(n, ruleOf(k).limit);
  }

  lemma EvictionsNext(ws: seq<World>, n: nat, k: string)
    requires 0 < n < |ws|
    ensures Evictions(ws[..n + 1], k) == Evictions(ws[..n], k) + if k in ws[n].evicted then 1 else 0
  {
    assert ws[..n + 1][..n] == ws[..n];
  }

  lemma BoundAt(c: Config, ruleOf: string -> Rule, ws: seq<World>, es: seq<Step>, k: string,
                t: int, i: nat, n: nat)
    requires Fits(c, ruleOf) && Steps(Transition(c, ruleOf), ws, es) && Good(c, ruleOf, ws[0])
    requires ruleOf(k).Active() && i < |es| && Forgotten(ws[i], k, t, t + ruleOf(k).window) <= n * ruleOf(k).limit
    ensures Forgotten(ws[i + 1], k, t, t + ruleOf(k).window)
      <= (n + if k in ws[i + 1].evicted then 1 else 0) * ruleOf(k).limit
  {
    MovesAt(c, ruleOf, ws, es, i);
    StepBound(c, ruleOf, ws[i], es[i], ws[i + 1], k, t, n);
  }

  lemma {:induction false} ForgottenBound(c: Config, ruleOf: string -> Rule, ws: seq<World>, es: seq<Step>,
                                          k: string, t: int, n: nat)
    requires Fits(c, ruleOf) && Steps(Transition(c, ruleOf), ws, es) && Good(c, ruleOf, ws[0])
    requires Forgotten(ws[0], k, t, t + ruleOf(k).window) == 0 && ruleOf(k).Active() && n <= |es|
    ensures Forgotten(ws[n], k, t, t + ruleOf(k).window) <= Evictions(ws[..n + 1], k) * ruleOf(k).limit
  {
    if n > 0 {
      ForgottenBound(c, ruleOf, ws, es, k, t, n - 1);
      EvictionsNext(ws, n, k);
      BoundAt(c, ruleOf, ws, es, k, t, n - 1, Evictions(ws[..n], k));
    } else {
      assert Evictions(ws[..1], k) * ruleOf(k).limit >= 0;
    }
  }

  lemma LastIsFew(c: Config, ruleOf: string -> Rule, ws: seq<World>, es: seq<Step>, k: string, t: int)
    requires Fits(c, ruleOf) && Steps(Transition(c, ruleOf), ws, es) && Good(c, ruleOf, ws[0]) && ruleOf(k).Active()
    ensures CountWithin(Times(ws[|es|].since, k), t, t + ruleOf(k).window) <= ruleOf(k).limit
  {
    GoodThroughout(c, ruleOf, ws, es);
    SinceIsFew(c, ruleOf, ws[|es|], k, t);
  }

  /** With evictions: a window holds at most `limit` admissions more for each time that the key
      was evicted. */
  lemma WindowBound(c: Config, ruleOf: string -> Rule, clock: int, ws: seq<World>, es: seq<Step>,
                    k: string, t: int)
    requires Run(c, ruleOf, clock, ws, es) && ruleOf(k).Active()
    ensures CountWithin(Times(ws[|es|].all, k), t, t + ruleOf(k).window) <= (1 + Evictions(ws, k)) * ruleOf(k).limit
  {
    var n := Evictions(ws, k);
    InitGood(c, ruleOf, clock);
    ForgottenBound(c, ruleOf, ws, es, k, t, |es|);
    assert ws[..|es| + 1] == ws;
    LastIsFew(c, ruleOf, ws, es, k, t);
    assert (1 + n) * ruleOf(k).limit == n * ruleOf(k).limit + ruleOf(k).limit;
  }

  lemma {:induction false} NoEvictions(ws: seq<World>, k: string)
    requires NeverEvicted(ws, k)
    ensures Evictions(ws, k) == 0
  {
    if |ws| > 0 {
      NoEvictions(ws[..|ws| - 1], k);
    }
  }

  /** So no window, wherever it starts, holds more than `limit` admissions of a key that is not
      evicted. */
  lemma WindowNeverOverfull(c: Config, ruleOf: string -> Rule, clock: int, ws: seq<World>,
                            es: seq<Step>, k: string, t: int)
    requires Run(c, ruleOf, clock, ws, es) && ruleOf(k).Active() && NeverEvicted(ws, k)
    ensures CountWithin(Times(ws[|es|].all, k), t, t + ruleOf(k).window) <= ruleOf(k).limit
  {
    WindowBound(c, ruleOf, clock, ws, es, k, t);
    NoEvictions(ws, k);
  }

  // ---- A window that is overfull ----

  /** One admission in a window of this length. */
  function OneIn(window: int): string -> Rule {
    (k: string) => Rule(1, window)
  }

  /** The table holds one key, admitted now. */
  ghost predicate Single(w: World, k: string, now: int) {
    w.st == RateLimit.State(map[k := [now]], Some(now)) && w.clock == now
  }

  lemma FirstOfOne(window: int, ts: seq<int>, now: int)
    requires |ts| == 0 && window > 0
    ensures Decide(Rule(1, window), ts, now) == (Allowed, [now])
  {
    assert Fresh(ts, now - window) == ts && ts + [now] == [now];
  }

  lemma FirstAdmitted(c: Config, window: int, now: int, key: string) returns (w': World)
    requires c.maxEntries == 1 && window > 0 && |key| > 0
    ensures Moves(c, OneIn(window), InitWorld(now), Step(Request(key, now), Allowed), w')
    ensures Single(w', key, now) && Times(w'.all, key) == [now]
  {
    var w := InitWorld(now);
    var room: map<string, seq<int>> := map[];
    assert Cleanup(c, w.st, now).entries == room;
    FirstOfOne(window, Times(room, key), now);
    w' := World(RateLimit.State(room[key := [now]], Some(now)), now, w.all[key := Times(w.all, key) + [now]],
                w.since[key := Times(w.since, key) + [now]], {});
    assert Admits(w, key, now, {}, Allowed, w') by {
      assert w.since - {} == w.since;
    }
    assert NextWith(c, Rule(1, window), w, Request(key, now), Allowed, room, w');
  }

  lemma RoomForNext(c: Config, first: string, key: string, now: int) returns (room: map<string, seq<int>>)
    requires c.maxEntries == 1 && |key| > 0 && key != first
    ensures |Times(room, key)| == 0 && room.Keys == {} && Room(c, map[first := [now]], key, room)
  {
    var entries := map[first := [now]];
    room := NonEmpty(entries) - {first};
    assert Oldest(entries, first);
  }

  /** A new key takes the place of the only one. */
  lemma TakesItsPlace(c: Config, window: int, w: World, first: string, key: string, now: int)
    returns (w': World)
    requires c.maxEntries == 1 && c.cleanupInterval > 0 && window > 0 && Single(w, first, now)
    requires |key| > 0 && key != first
    ensures Moves(c, OneIn(window), w, Step(Request(key, now), Allowed), w') && Single(w', key, now)
    ensures w'.all == w.all[key := Times(w.all, key) + [now]]
  {
    var room := RoomForNext(c, first, key, now);
    assert Cleanup(c, w.st, now) == w.st;
    FirstOfOne(window, Times(room, key), now);
    var since := w.since - {first};
    w' := World(RateLimit.State(room[key := [now]], Some(now)), now, w.all[key := Times(w.all, key) + [now]],
                since[key := Times(since, key) + [now]], {first});
    assert w.st.entries.Keys - room.Keys == {first};
    assert Admits(w, key, now, {first}, Allowed, w');
    assert NextWith(c, Rule(1, window), w, Request(key, now), Allowed, room, w');
  }

  lemma RunOn(c: Config, ruleOf: string -> Rule, clock: int, ws: seq<World>, es: seq<Step>, e: Step,
              w: World)
    requires Run(c, ruleOf, clock, ws, es) && Moves(c, ruleOf, ws[|es|], e, w)
    ensures Run(c, ruleOf, clock, ws + [w], es + [e])
  {
    StepsSnoc(Transition(c, ruleOf), ws, es, e, w);
  }

  /** The two keys, and the first one again. */
  lemma TakingTurns(c: Config, window: int, now: int) returns (x: World, y: World, z: World)
    requires c.maxEntries == 1 && c.cleanupInterval > 0 && window > 0
    ensures Moves(c, OneIn(window), InitWorld(now), Step(Request("a", now), Allowed), x)
    ensures Moves(c, OneIn(window), x, Step(Request("b", now), Allowed), y)
    ensures Moves(c, OneIn(window), y, Step(Request("a", now), Allowed), z)
    ensures Times(z.all, "a") == [now] + [now]
  {
    x := FirstAdmitted(c, window, now, "a");
    y := TakesItsPlace(c, window, x, "a", "b", now);
    z := TakesItsPlace(c, window, y, "b", "a", now);
  }

  lemma TwoWithin(now: int, window: int)
    requires window > 0
    ensures CountWithin([now] + [now], now - 1, now - 1 + window) == 2
  {
    var h := [now];
    CountWithinSnoc(h, now, now - 1, now - 1 + window);
    assert |h[1..]| == 0;
  }

  /** Where eviction lets a window hold too many: a table of one key and a limit of one. Two keys
      take turns, and each is admitted every time. */
  lemma EvictionOverfills(c: Config, window: int, now: int) returns (ws: seq<World>, es: seq<Step>)
    requires c.maxEntries == 1 && c.cleanupInterval > 0 && 0 < window <= c.maxWindow
    ensures Run(c, OneIn(window), now, ws, es)
    ensures CountWithin(Times(ws[|es|].all, "a"), now - 1, now - 1 + window) == 2
  {
    var a, b := Step(Request("a", now), Allowed), Step(Request("b", now), Allowed);
    var x, y, z := TakingTurns(c, window, now);
    var w := InitWorld(now);
    assert Run(c, OneIn(window), now, [w], []);
    RunOn(c, OneIn(window), now, [w], [], a, x);
    RunOn(c, OneIn(window), now, [w] + [x], [] + [a], b, y);
    RunOn(c, OneIn(window), now, [w] + [x] + [y], [] + [a] + [b], a, z);
    ws, es := [w] + [x] + [y] + [z], [] + [a] + [b] + [a];
    TwoWithin(now, window);
  }

  // ---- Retry-After ----

  /** The key has used up its limit, and the admission to wait for was made at `oldest`. */
  predicate Blocked(rule: Rule, ts: seq<int>, oldest: int) {
    rule.Active() && |ts| >= rule.limit && ts[0] == oldest
  }

  lemma BlockedIsFresh(rule: Rule, ts: seq<int>, oldest: int, cutoff: int)
    requires Blocked(rule, ts, oldest) && cutoff < oldest
    ensures Fresh(ts, cutoff) == ts
  {
  }

  lemma BlockedSurvives(c: Config, ruleOf: string -> Rule, st: RateLimit.State, now: int, k: string,
                        oldest: int)
    requires Fits(c, ruleOf) && Blocked(ruleOf(k), Times(st.entries, k), oldest) && now < oldest + ruleOf(k).window
    ensures Times(Cleanup(c, st, now).entries, k) == Times(st.entries, k) && k in Cleanup(c, st, now).entries
  {
    BlockedIsFresh(ruleOf(k), Times(st.entries, k), oldest, now - c.maxWindow);
    SweptIsFresh(st.entries, now - c.maxWindow, k);
  }

  /** Until `oldest` leaves the window, a blocked key that is not evicted stays blocked and every
      request for it is denied. */
  lemma BlockedStep(c: Config, ruleOf: string -> Rule, w: World, e: Step, w': World, k: string,
                    oldest: int)
    requires Fits(c, ruleOf) && Good(c, ruleOf, w) && Moves(c, ruleOf, w, e, w')
    requires Blocked(ruleOf(k), Times(w.st.entries, k), oldest)
    requires e.request.now < oldest + ruleOf(k).window && k !in w'.evicted
    ensures Blocked(ruleOf(k), Times(w'.st.entries, k), oldest)
    ensures e.request.key == k ==> e.outcome.Denied?
  {
    GoodIsNonEmpty(c, ruleOf, w);
    var r, out, rule := e.request, e.outcome, ruleOf(e.request.key);
    if rule.Active() {
      var room :| NextWith(c, rule, w, r, out, room, w');
      AllowEffect(c, rule, r.key, r.now, w.st, room, w'.st, out);
      BlockedSurvives(c, ruleOf, w.st, r.now, k, oldest);
      BlockedIsFresh(ruleOf(k), Times(w.st.entries, k), oldest, r.now - ruleOf(k).window);
    }
  }

  /** A denial leaves the key blocked and reports the time until its oldest admission leaves the
      window, but at least a second. */
  lemma DenialBlocks(c: Config, ruleOf: string -> Rule, w: World, e: Step,
                     w': World) returns (oldest: int)
    requires Fits(c, ruleOf) && Good(c, ruleOf, w) && Moves(c, ruleOf, w, e, w') && e.outcome.Denied?
    ensures var k, now, rule := e.request.key, e.request.now, ruleOf(e.request.key);
      && Blocked(rule, Times(w'.st.entries, k), oldest) && now - rule.window < oldest
      && e.outcome.retryAfter == Max(oldest + rule.window - now, SECOND)
      && Times(w'.st.entries, k) == Fresh(Times(w'.since, k), now - rule.window)
      && Times(w'.since, k) == Times(w.since, k)
      && |Times(w'.st.entries, k)| == rule.limit && Sorted(Times(w'.since, k))
  {
    GoodIsNonEmpty(c, ruleOf, w);
    var r, rule := e.request, ruleOf(e.request.key);
    assert KeyInv(ruleOf, w, r.key);
    var room :| NextWith(c, rule, w, r, e.outcome, room, w');
    AllowEffect(c, rule, r.key, r.now, w.st, room, w'.st, e.outcome);
    CleanupKeeps(c, rule, w.st, w.clock, r.now, r.key, Times(w.since, r.key));
    oldest := Times(w'.st.entries, r.key)[0];
    RequestedKey(c, ruleOf, w, r, e.outcome, room, w');
    assert Times(w'.since, r.key) == Times(w.since, r.key);
  }

  ghost predicate BlockedWorld(c: Config, ruleOf: string -> Rule, w: World, k: string, oldest: int) {
    Good(c, ruleOf, w) && Blocked(ruleOf(k), Times(w.st.entries, k), oldest)
  }

  /** After a denial, every request for the key made before its oldest admission leaves the
      window is denied too, as long as the key is not evicted. */
  lemma RetryingEarlyIsDenied(c: Config, ruleOf: string -> Rule, ws: seq<World>, es: seq<Step>,
                              oldest: int)
    requires Fits(c, ruleOf) && Steps(Transition(c, ruleOf), ws, es) && Good(c, ruleOf, ws[0])
    requires es != [] && es[0].outcome.Denied?
    requires Blocked(ruleOf(es[0].request.key), Times(ws[1].st.entries, es[0].request.key), oldest)
    requires forall i :: 1 <= i < |es| ==>
      es[i].request.now < oldest + ruleOf(es[0].request.key).window && es[0].request.key !in ws[i + 1].evicted
    ensures forall i :: 1 <= i < |es| && es[i].request.key == es[0].request.key ==> es[i].outcome.Denied?
    ensures es[0].outcome.retryAfter == Max(oldest + ruleOf(es[0].request.key).window - es[0].request.now, SECOND)
  {
    var k, next := es[0].request.key, Transition(c, ruleOf);
    assert next(ws[0], es[0], ws[1]);
    var o := DenialBlocks(c, ruleOf, ws[0], es[0], ws[1]);
    StepKeepsGood(c, ruleOf, ws[0], es[0].request, es[0].outcome, ws[1]);
    var early := (w, e: Step, w') => next(w, e, w') && e.request.now < oldest + ruleOf(k).window && k !in w'.evicted;
    forall w, e: Step, w' | BlockedWorld(c, ruleOf, w, k, oldest) && early(w, e, w')
      ensures BlockedWorld(c, ruleOf, w', k, oldest)
    {
      StepKeepsGood(c, ruleOf, w, e.request, e.outcome, w');
      BlockedStep(c, ruleOf, w, e, w', k, oldest);
    }
    forall i | 0 <= i < |es[1..]| ensures early(ws[1..][i], es[1..][i], ws[1..][i + 1]) {
      assert next(ws[i + 1], es[i + 1], ws[i + 2]);
    }
    Invariant(early, ws[1..], es[1..], w => BlockedWorld(c, ruleOf, w, k, oldest));
    forall i | 1 <= i < |es| && es[i].request.key == k ensures es[i].outcome.Denied? {
      assert (w => BlockedWorld(c, ruleOf, w, k, oldest))(ws[1..][i - 1]);
      assert next(ws[i], es[i], ws[i + 1]);
      BlockedStep(c, ruleOf, ws[i], es[i], ws[i + 1], k, oldest);
    }
  }

  /** Once `oldest` has left the window, fewer than `limit` admissions remain in it. */
  lemma OldestLeavesWindow(rule: Rule, h: seq<int>, denied: int, now: int)
    requires rule.Active() && Sorted(h) && denied <= now
    requires var kept := Fresh(h, denied - rule.window); |kept| == rule.limit && kept[0] + rule.window <= now
    ensures CountAfter(h, now - rule.window) < rule.limit
  {
    FreshTwice(h, denied - rule.window, now - rule.window);
    FreshCounts(h, now - rule.window);
  }

  predicate FullUntil(rule: Rule, h: seq<int>, now: int, until: int) {
    var kept := Fresh(h, now - rule.window);
    rule.limit > 0 && |kept| == rule.limit && kept[0] + rule.window <= until
  }

  /** A denial comes when exactly `limit` admissions are in the window, the oldest of which
      leaves it no later than the reported time. */
  lemma DenialFacts(c: Config, ruleOf: string -> Rule, w: World, e: Step, w': World)
    requires Fits(c, ruleOf) && Good(c, ruleOf, w) && Moves(c, ruleOf, w, e, w') && e.outcome.Denied?
    ensures ruleOf(e.request.key).Active()
    ensures Sorted(Times(w'.since, e.request.key))
    ensures FullUntil(ruleOf(e.request.key), Times(w'.since, e.request.key), e.request.now,
                      e.request.now + e.outcome.retryAfter)
    ensures e.outcome.retryAfter > 0
  {
    var oldest := DenialBlocks(c, ruleOf, w, e, w');
  }

  /** Fewer than the limit are left in the window once the reported time has passed, and none if
      the key was forgotten. */
  lemma RoomAgain(rule: Rule, h: seq<int>, since: seq<int>, denied: int, until: int, now: int)
    requires rule.Active() && Sorted(h) && FullUntil(rule, h, denied, until) && denied <= until <= now
    requires since == h || |since| == 0
    ensures CountAfter(since, now - rule.window) < rule.limit
  {
    if since == h {
      OldestLeavesWindow(rule, h, denied, now);
    } else {
      assert CountAfter(since, now - rule.window) == 0;
    }
  }

  /** After a denial, once the reported time has passed, with no admission of the key in between
      and whether or not it was forgotten. */
  lemma HasRoomAgain(c: Config, ruleOf: string -> Rule, w: World, e: Step, w': World,
                     since: seq<int>, now: int)
    requires Fits(c, ruleOf) && Good(c, ruleOf, w) && Moves(c, ruleOf, w, e, w') && e.outcome.Denied?
    requires since == Times(w'.since, e.request.key) || |since| == 0
    requires e.request.now + e.outcome.retryAfter <= now
    ensures ruleOf(e.request.key).Active()
    ensures Admissible(ruleOf(e.request.key), since, now)
  {
    DenialFacts(c, ruleOf, w, e, w');
    RoomAgain(ruleOf(e.request.key), Times(w'.since, e.request.key), since, e.request.now,
              e.request.now + e.outcome.retryAfter, now);
  }

  /** So the next request is admitted. */
  lemma WaitingIsHonoured(c: Config, ruleOf: string -> Rule, w: World, e: Step, w': World,
                          v: World, retry: Step, v': World)
    requires Fits(c, ruleOf) && Good(c, ruleOf, w) && Moves(c, ruleOf, w, e, w') && e.outcome.Denied?
    requires Good(c, ruleOf, v) && Moves(c, ruleOf, v, retry, v') && retry.request.key == e.request.key
    requires var k := e.request.key;
      Times(v.since, k) == Times(w'.since, k) || |Times(v.since, k)| == 0
    requires e.request.now + e.outcome.retryAfter <= retry.request.now
    ensures retry.outcome.Allowed?
  {
    var since := Times(v.since, retry.request.key);
    HasRoomAgain(c, ruleOf, w, e, w', since, retry.request.now);
    StepDecides(c, ruleOf, v, retry.request, retry.outcome, v');
  }

  /** While a key is only denied, its history stays as it was or is forgotten by eviction. */
  lemma SinceKeptByDenials(c: Config, ruleOf: string -> Rule, ws: seq<World>, es: seq<Step>,
                           k: string, h: seq<int>)
    requires Steps(Transition(c, ruleOf), ws, es) && Times(ws[0].since, k) == h
    requires forall i :: 0 <= i < |es| && es[i].request.key == k ==> es[i].outcome.Denied?
    ensures Times(ws[|es|].since, k) == h || |Times(ws[|es|].since, k)| == 0
  {
    var next := Transition(c, ruleOf);
    var quiet := (w, e: Step, w') => next(w, e, w') && (e.request.key == k ==> e.outcome.Denied?);
    var inv := (w: World) => Times(w.since, k) == h || |Times(w.since, k)| == 0;
    forall w, e: Step, w' | inv(w) && quiet(w, e, w') ensures inv(w') {
      assert Times(w'.since, k) == Times(w.since, k) || |Times(w'.since, k)| == 0;
    }
    forall i | 0 <= i < |es| ensures quiet(ws[i], es[i], ws[i + 1]) {
      assert next(ws[i], es[i], ws[i + 1]);
    }
    Invariant(quiet, ws, es, inv);
    assert inv(ws[|es|]);
  }

  /** The same for the steps between the first and the last of a run. */
  lemma SinceKeptBetween(c: Config, ruleOf: string -> Rule, ws: seq<World>, es: seq<Step>, n: nat,
                         k: string)
    requires Steps(Transition(c, ruleOf), ws, es) && 1 <= n < |es|
    requires forall i :: 1 <= i < n && es[i].request.key == k ==> es[i].outcome.Denied?
    ensures Times(ws[n].since, k) == Times(ws[1].since, k) || |Times(ws[n].since, k)| == 0
  {
    var next := Transition(c, ruleOf);
    var mid, steps := ws[1..n + 1], es[1..n];
    forall i {:trigger steps[i]} | 0 <= i < |steps| ensures next(mid[i], steps[i], mid[i + 1]) {
      assert next(ws[i + 1], es[i + 1], ws[i + 2]);
    }
    SinceKeptByDenials(c, ruleOf, mid, steps, k, Times(ws[1].since, k));
  }

  /** Over a run: deny, then only denials of that key, then wait the reported time. */
  lemma RetryAfterIsHonoured(c: Config, ruleOf: string -> Rule, ws: seq<World>, es: seq<Step>)
    requires Fits(c, ruleOf) && Steps(Transition(c, ruleOf), ws, es) && Good(c, ruleOf, ws[0])
    requires |es| >= 2 && es[0].outcome.Denied? && es[|es| - 1].request.key == es[0].request.key
    requires forall i :: 1 <= i < |es| - 1 && es[i].request.key == es[0].request.key ==> es[i].outcome.Denied?
    requires es[|es| - 1].request.now >= es[0].request.now + es[0].outcome.retryAfter
    ensures es[|es| - 1].outcome.Allowed?
  {
    var k, n := es[0].request.key, |es| - 1;
    SinceKeptBetween(c, ruleOf, ws, es, n, k);
    MovesAt(c, ruleOf, ws, es, 0);
    MovesAt(c, ruleOf, ws, es, n);
    WaitingIsHonoured(c, ruleOf, ws[0], es[0], ws[1], ws[n], es[n], ws[n + 1]);
  }
}
