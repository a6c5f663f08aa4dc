/** The sliding-window limiter of the authentication endpoints: per key the admission times
    still remembered, pruned on every request, swept now and then, and evicted when the table
    is full. Times and durations are integers, in nanoseconds. */
module RateLimit {
  import opened Prelude

  const SECOND := 1_000_000_000
  const MINUTE := 60 * SECOND
  const HOUR := 60 * MINUTE

  datatype Rule = Rule(limit: int, window: int) {
    predicate Active() { limit > 0 && window > 0 }
  }

  datatype Config = Config(maxWindow: int, cleanupInterval: int, maxEntries: int)

  datatype State = State(entries: map<string, seq<int>>, lastCleanup: Option<int>)

  datatype Outcome = Allowed | Denied(retryAfter: int)

  function Times(m: map<string, seq<int>>, key: string): seq<int> {
    if key in m then m[key] else []
  }

  /** What is left after dropping the leading times not after the cutoff. */
  function Fresh(ts: seq<int>, cutoff: int): (r: seq<int>)
    ensures |r| <= |ts|
    ensures r != [] ==> r[0] > cutoff
  {
    if ts == [] || ts[0] > cutoff then ts else Fresh(ts[1..], cutoff)
  }

  function Swept(entries: map<string, seq<int>>, cutoff: int): (r: map<string, seq<int>>) {
    map k | k in entries && Fresh(entries[k], cutoff) != [] :: Fresh(entries[k], cutoff)
  }

  function Cleanup(c: Config, st: State, now: int): State {
    if st.lastCleanup.Some? && now - st.lastCleanup.value < c.cleanupInterval then st
    else State(Swept(st.entries, now - c.maxWindow), Some(now))
  }

  /** The key may be evicted: no other key was last seen earlier. */
  ghost predicate Oldest(entries: map<string, seq<int>>, k: string) {
    && k in entries && entries[k] != []
    && forall j :: j in entries && entries[j] != [] ==> entries[k][|entries[k]| - 1] <= entries[j][|entries[j]| - 1]
  }

  function NonEmpty(entries: map<string, seq<int>>): (r: map<string, seq<int>>) {
    map k | k in entries && entries[k] != [] :: entries[k]
  }

  /** Making room for a new key. Which of several oldest keys goes is left to map iteration. */
  ghost predicate MakesRoom(c: Config, entries: map<string, seq<int>>, key: string, entries': map<string, seq<int>>) {
    if key == [] || c.maxEntries <= 0 || key in entries || |entries| < c.maxEntries then entries' == entries
    else
      || (NonEmpty(entries) == map[] && entries' == map[])
      || (exists k :: Oldest(entries, k) && entries' == NonEmpty(entries) - {k})
  }

  ghost predicate Room(c: Config, entries: map<string, seq<int>>, key: string, room: map<string, seq<int>>) {
    if Times(entries, key) == [] then MakesRoom(c, entries, key, room) else room == entries
  }

  /** The decision on a key whose remembered times are `ts`, and the times remembered next. */
  function Decide(rule: Rule, ts: seq<int>, now: int): (r: (Outcome, seq<int>))
    requires rule.Active()
  {
    var kept := Fresh(ts, now - rule.window);
    if |kept| >= rule.limit then (Denied(Max(kept[0] + rule.window - now, SECOND)), kept)
    else (Allowed, kept + [now])
  }

  /** A request with an active rule, given the table `room` after making room. */
  ghost predicate AllowWith(c: Config, rule: Rule, key: string, now: int, st: State,
                            room: map<string, seq<int>>, st': State, out: Outcome)
    requires rule.Active()
  {
    var swept := Cleanup(c, st, now);
    && Room(c, swept.entries, key, room)
    && out == Decide(rule, Times(room, key), now).0
    && st' == State(room[key := Decide(rule, Times(room, key), now).1], swept.lastCleanup)
  }

  // ---- Runs ----

  datatype Request = Request(key: string, now: int)

  /** The limiter with its history: per key all admissions, those since the key was last evicted
      for capacity, the clock, and the keys evicted by the last step. */
  datatype World = World(
    st: State, clock: int, all: map<string, seq<int>>, since: map<string, seq<int>>, evicted: set<string>)

  ghost predicate Admits(w: World, key: string, now: int, evicted: set<string>, out: Outcome, w': World) {
    var since := w.since - evicted;
    && w'.evicted == evicted && w'.clock == now
    && w'.all == (if out.Allowed? then w.all[key := Times(w.all, key) + [now]] else w.all)
    && w'.since == (if out.Allowed? then since[key := Times(since, key) + [now]] else since)
  }

  ghost predicate NextWith(c: Config, rule: Rule, w: World, e: Request, out: Outcome, room: map<string, seq<int>>,
                           w': World)
    requires rule.Active()
  {
    && AllowWith(c, rule, e.key, e.now, w.st, room, w'.st, out)
    && Admits(w, e.key, e.now, Cleanup(c, w.st, e.now).entries.Keys - room.Keys, out, w')
  }

  /** One request, by the rule of its key, at a time not before the previous one. */
  ghost predicate Next(c: Config, ruleOf: string -> Rule, w: World, e: Request, out: Outcome, w': World) {
    && e.now >= w.clock
    && var rule := ruleOf(e.key);
       if !rule.Active() then out == Allowed && w' == w.(clock := e.now, evicted := {})
       else exists room :: NextWith(c, rule, w, e, out, room, w')
  }

  predicate Sorted(ts: seq<int>) {
    forall i, j :: 0 <= i <= j < |ts| ==> ts[i] <= ts[j]
  }

  /** Any limit + 1 consecutive admissions span at least a window. */
  ghost predicate Spaced(rule: Rule, h: seq<int>) {
    forall i, j :: 0 <= i < j < |h| && j - i >= rule.limit ==> h[j] - h[i] >= rule.window
  }

  /** Admissions come in clock order, none later than the clock. */
  ghost predicate History(rule: Rule, clock: int, h: seq<int>) {
    Sorted(h) && (h != [] ==> h[|h| - 1] <= clock) && Spaced(rule, h)
  }

  /** From the cutoff on, the remembered times are as good as the history. */
  ghost predicate Agrees(ts: seq<int>, h: seq<int>, cutoff: int) {
    forall c :: c >= cutoff ==> Fresh(ts, c) == Fresh(h, c)
  }

  ghost predicate Remembers(rule: Rule, clock: int, ts: seq<int>, h: seq<int>) {
    Agrees(ts, h, clock - rule.window) && |ts| <= rule.limit && History(rule, clock, h)
  }

  ghost predicate KeyInv(ruleOf: string -> Rule, w: World, k: string) {
    && (k in w.st.entries ==> w.st.entries[k] != [])
    && (if ruleOf(k).Active() then Remembers(ruleOf(k), w.clock, Times(w.st.entries, k), Times(w.since, k))
        else k !in w.st.entries && Times(w.since, k) == [] && Times(w.all, k) == [])
  }

  ghost predicate Fits(c: Config, ruleOf: string -> Rule) {
    forall k :: ruleOf(k).window <= c.maxWindow
  }

  // ---- Counting ----

  /** How many times in the history lie after the cutoff. */
  function CountAfter(h: seq<int>, cutoff: int): (n: nat) {
    if h == [] then 0 else (if h[0] > cutoff then 1 else 0) + CountAfter(h[1..], cutoff)
  }

  /** How many lie in (from, to]. */
  function CountWithin(h: seq<int>, from: int, to: int): (n: nat) {
    if h == [] then 0 else (if from < h[0] <= to then 1 else 0) + CountWithin(h[1..], from, to)
  }

  lemma {:induction false} FreshCounts(h: seq<int>, cutoff: int)
    requires Sorted(h)
    ensures |Fresh(h, cutoff)| == CountAfter(h, cutoff)
  {
    if h != [] {
      FreshCounts(h[1..], cutoff);
      if h[0] > cutoff {
        assert forall i :: 0 <= i < |h[1..]| ==> h[1..][i] > cutoff;
      }
    }
  }

  /** Forgetting at an earlier cutoff first changes nothing. */
  lemma {:induction false} FreshTwice(ts: seq<int>, early: int, late: int)
    requires early <= late
    ensures Fresh(Fresh(ts, early), late) == Fresh(ts, late)
  {
    if ts != [] && ts[0] <= early {
      FreshTwice(ts[1..], early, late);
    }
  }

  lemma {:induction false} FreshAppend(ts: seq<int>, t: int, cutoff: int)
    ensures Fresh(ts + [t], cutoff) ==
            if Fresh(ts, cutoff) == [] && t <= cutoff then [] else Fresh(ts, cutoff) + [t]
  {
    if ts == [] {
      assert [t][1..] == [];
    } else if ts[0] <= cutoff {
      FreshAppend(ts[1..], t, cutoff);
      assert (ts + [t])[1..] == ts[1..] + [t];
    }
  }

  /** What Fresh drops is not after the cutoff. */
  lemma {:induction false} DroppedAreOld(ts: seq<int>, cutoff: int, i: nat)
    requires i < |ts| - |Fresh(ts, cutoff)|
    ensures ts[i] <= cutoff
  {
    if i > 0 {
      DroppedAreOld(ts[1..], cutoff, i - 1);
    }
  }

  // ---- One key ----

  lemma ForgetAgrees(ts: seq<int>, h: seq<int>, before: int, cutoff: int, after: int)
    requires Agrees(ts, h, before) && before <= after && cutoff <= after
    ensures Agrees(Fresh(ts, cutoff), h, after)
  {
    forall c | c >= after ensures Fresh(Fresh(ts, cutoff), c) == Fresh(h, c) {
      FreshTwice(ts, cutoff, c);
    }
  }

  lemma AppendAgrees(ts: seq<int>, h: seq<int>, t: int, cutoff: int)
    requires Agrees(ts, h, cutoff)
    ensures Agrees(ts + [t], h + [t], cutoff)
  {
    forall c | c >= cutoff ensures Fresh(ts + [t], c) == Fresh(h + [t], c) {
      FreshAppend(ts, t, c);
      FreshAppend(h, t, c);
    }
  }

  lemma AdmitKeepsHistory(rule: Rule, now: int, n: nat, h: seq<int>)
    requires rule.Active() && n < rule.limit && n <= |h| && History(rule, now, h)
    requires forall i :: 0 <= i < |h| - n ==> h[i] <= now - rule.window
    ensures History(rule, now, h + [now])
  {
  }

  lemma LaterClock(rule: Rule, clock: int, now: int, h: seq<int>)
    requires History(rule, clock, h) && clock <= now
    ensures History(rule, now, h)
  {
  }

  lemma DecideKeepsAgreement(rule: Rule, clock: int, now: int, ts: seq<int>, h: seq<int>)
    requires rule.Active() && Agrees(ts, h, clock - rule.window) && |ts| <= rule.limit && clock <= now
    ensures var (out, kept) := Decide(rule, ts, now);
      Agrees(kept, if out.Allowed? then h + [now] else h, now - rule.window) && |kept| <= rule.limit
  {
    ForgetAgrees(ts, h, clock - rule.window, now - rule.window, now - rule.window);
    AppendAgrees(Fresh(ts, now - rule.window), h, now, now - rule.window);
  }

  lemma DecideKeepsHistory(rule: Rule, clock: int, now: int, ts: seq<int>, h: seq<int>)
    requires rule.Active() && Agrees(ts, h, clock - rule.window) && History(rule, clock, h) && clock <= now
    ensures History(rule, now, if Decide(rule, ts, now).0.Allowed? then h + [now] else h)
  {
    LaterClock(rule, clock, now, h);
    var cutoff := now - rule.window;
    var n := |Fresh(h, cutoff)|;
    assert Fresh(ts, cutoff) == Fresh(h, cutoff);
    if n < rule.limit {
      forall i | 0 <= i < |h| - n ensures h[i] <= cutoff {
        DroppedAreOld(h, cutoff, i);
      }
      AdmitKeepsHistory(rule, now, n, h);
    }
  }

  /** The decision counts exactly the admissions of the last window, forgotten or not. */
  lemma DecidesOnHistory(rule: Rule, clock: int, now: int, ts: seq<int>, h: seq<int>)
    requires rule.Active() && Agrees(ts, h, clock - rule.window) && Sorted(h) && clock <= now
    ensures Decide(rule, ts, now).0.Allowed? <==> CountAfter(h, now - rule.window) < rule.limit
  {
    assert Fresh(ts, now - rule.window) == Fresh(h, now - rule.window);
    FreshCounts(h, now - rule.window);
  }

  // ---- One step ----

  lemma SweptIsFresh(entries: map<string, seq<int>>, cutoff: int, k: string)
    ensures Times(Swept(entries, cutoff), k) == Fresh(Times(entries, k), cutoff)
    ensures k in Swept(entries, cutoff) ==> Swept(entries, cutoff)[k] != []
  {
  }

  ghost predicate AllNonEmpty(entries: map<string, seq<int>>) {
    forall k :: k in entries ==> entries[k] != []
  }

  /** Cleanup forgets only what no window needs any more. */
  lemma CleanupKeeps(c: Config, rule: Rule, st: State, clock: int, now: int, k: string, h: seq<int>)
    requires Agrees(Times(st.entries, k), h, clock - rule.window) && |Times(st.entries, k)| <= rule.limit
    requires clock <= now && rule.window <= c.maxWindow
    ensures var ts := Times(Cleanup(c, st, now).entries, k);
      Agrees(ts, h, now - rule.window) && |ts| <= rule.limit
  {
    SweptIsFresh(st.entries, now - c.maxWindow, k);
    ForgetAgrees(Times(st.entries, k), h, clock - rule.window, now - c.maxWindow, now - rule.window);
  }

  lemma CleanupNonEmpty(c: Config, st: State, now: int)
    requires AllNonEmpty(st.entries)
    ensures AllNonEmpty(Cleanup(c, st, now).entries) && Cleanup(c, st, now).entries.Keys <= st.entries.Keys
  {
  }

  /** Making room removes at most one key, leaves the others alone, and never the requested
      one; afterwards the table has a free slot unless the key is already in it. */
  lemma RoomEffect(c: Config, entries: map<string, seq<int>>, key: string, room: map<string, seq<int>>)
    requires AllNonEmpty(entries) && Room(c, entries, key, room)
    ensures room.Keys <= entries.Keys && forall k :: k in room ==> room[k] == entries[k]
    ensures key in entries ==> room == entries
    ensures |entries| <= |room| + 1
    ensures c.maxEntries > 0 && key != [] && |entries| <= c.maxEntries ==> key in room || |room| < c.maxEntries
  {
    assert NonEmpty(entries) == entries;
    if room != entries && entries != map[] {
      var k :| Oldest(entries, k) && room == entries - {k};
      assert room.Keys == entries.Keys - {k};
    }
  }

  /** What a request with an active rule does to the table, whoever is evicted. */
  ghost predicate Answered(c: Config, rule: Rule, key: string, now: int, st: State,
                           room: map<string, seq<int>>, st': State, out: Outcome)
    requires rule.Active()
  {
    var swept := Cleanup(c, st, now).entries;
    var d := Decide(rule, Times(swept, key), now);
    && room.Keys <= swept.Keys && (forall k :: k in room ==> room[k] == swept[k])
    && (key in swept ==> key in room)
    && out == d.0
    && st'.entries == room[key := d.1]
  }

  lemma AllowEffect(c: Config, rule: Rule, key: string, now: int, st: State,
                    room: map<string, seq<int>>, st': State, out: Outcome)
    requires rule.Active() && AllNonEmpty(st.entries) && AllowWith(c, rule, key, now, st, room, st', out)
    ensures Answered(c, rule, key, now, st, room, st', out)
  {
    CleanupNonEmpty(c, st, now);
    RoomEffect(c, Cleanup(c, st, now).entries, key, room);
  }

  lemma InactiveKeepsKey(ruleOf: string -> Rule, w: World, now: int, k: string)
    requires KeyInv(ruleOf, w, k) && w.clock <= now
    ensures KeyInv(ruleOf, w.(clock := now, evicted := {}), k)
  {
    if ruleOf(k).Active() {
      LaterClock(ruleOf(k), w.clock, now, Times(w.since, k));
    }
  }

  lemma RequestedTimes(rule: Rule, clock: int, now: int, ts: seq<int>, h: seq<int>)
    requires rule.Active() && clock <= now
    requires Agrees(ts, h, now - rule.window) && |ts| <= rule.limit && History(rule, clock, h)
    ensures var (out, kept) := Decide(rule, ts, now);
      && kept != []
      && Remembers(rule, now, kept, if out.Allowed? then h + [now] else h)
  {
    LaterClock(rule, clock, now, h);
    DecideKeepsAgreement(rule, now, now, ts, h);
    DecideKeepsHistory(rule, now, now, ts, h);
  }

  /** The key a request is about. */
  lemma RequestedKey(c: Config, ruleOf: string -> Rule, w: World, e: Request, out: Outcome,
                     room: map<string, seq<int>>, w': World)
    requires Fits(c, ruleOf) && KeyInv(ruleOf, w, e.key) && e.now >= w.clock
    requires ruleOf(e.key).Active() && Answered(c, ruleOf(e.key), e.key, e.now, w.st, room, w'.st, out)
    requires Admits(w, e.key, e.now, Cleanup(c, w.st, e.now).entries.Keys - room.Keys, out, w')
    ensures KeyInv(ruleOf, w', e.key) && e.key !in w'.evicted
  {
    var rule, h, ts := ruleOf(e.key), Times(w.since, e.key), Times(Cleanup(c, w.st, e.now).entries, e.key);
    CleanupKeeps(c, rule, w.st, w.clock, e.now, e.key, h);
    RequestedTimes(rule, w.clock, e.now, ts, h);
    assert Times(w.since - w'.evicted, e.key) == h;
  }

  /** Any other key is only swept, or evicted and then starts a new history. */
  lemma OtherKey(c: Config, ruleOf: string -> Rule, w: World, e: Request, out: Outcome,
                 room: map<string, seq<int>>, w': World, k: string)
    requires Fits(c, ruleOf) && AllNonEmpty(w.st.entries) && KeyInv(ruleOf, w, k) && e.now >= w.clock && k != e.key
    requires ruleOf(e.key).Active() && Answered(c, ruleOf(e.key), e.key, e.now, w.st, room, w'.st, out)
    requires Admits(w, e.key, e.now, Cleanup(c, w.st, e.now).entries.Keys - room.Keys, out, w')
    ensures KeyInv(ruleOf, w', k)
  {
    CleanupNonEmpty(c, w.st, e.now);
    var ts, h := Times(Cleanup(c, w.st, e.now).entries, k), Times(w.since, k);
    assert Times(w'.since, k) == (if k in w'.evicted then [] else h);
    assert Times(w'.st.entries, k) == (if k in w'.evicted then [] else ts);
    if ruleOf(k).Active() {
      LaterClock(ruleOf(k), w.clock, e.now, h);
      CleanupKeeps(c, ruleOf(k), w.st, w.clock, e.now, k, h);
    }
  }

  lemma Subset<T>(a: set<T>, b: set<T>)
    requires a <= b
    ensures |a| <= |b|
  {
    assert b == a + (b - a) && a !! (b - a);
  }

  lemma KeysBound(a: map<string, seq<int>>, b: map<string, seq<int>>)
    requires a.Keys <= b.Keys
    ensures |a| <= |b|
  {
    Subset(a.Keys, b.Keys);
  }

  lemma PutBound(m: map<string, seq<int>>, key: string, ts: seq<int>)
    ensures |m[key := ts]| == if key in m then |m| else |m| + 1
  {
    assert m[key := ts].Keys == m.Keys + {key};
    assert key in m ==> m.Keys + {key} == m.Keys;
  }

  lemma SizeKept(c: Config, rule: Rule, key: string, now: int, st: State, room: map<string, seq<int>>, st': State,
                 out: Outcome)
    requires AllNonEmpty(st.entries) && rule.Active() && key != [] && c.maxEntries > 0 && |st.entries| <= c.maxEntries
    requires AllowWith(c, rule, key, now, st, room, st', out)
    ensures |st'.entries| <= c.maxEntries
  {
    var swept := Cleanup(c, st, now).entries;
    CleanupNonEmpty(c, st, now);
    KeysBound(swept, st.entries);
    RoomEffect(c, swept, key, room);
    KeysBound(room, swept);
    PutBound(room, key, Decide(rule, Times(room, key), now).1);
  }

  ghost predicate Good(c: Config, ruleOf: string -> Rule, w: World) {
    (forall k :: KeyInv(ruleOf, w, k)) && (c.maxEntries > 0 ==> |w.st.entries| <= c.maxEntries)
  }

  lemma GoodIsNonEmpty(c: Config, ruleOf: string -> Rule, w: World)
    requires Good(c, ruleOf, w)
    ensures AllNonEmpty(w.st.entries)
  {
    forall k | k in w.st.entries ensures w.st.entries[k] != [] {
      assert KeyInv(ruleOf, w, k);
    }
  }

  /** Fewer than `limit` of the given admissions lie in the window before this time. */
  ghost predicate Admissible(rule: Rule, history: seq<int>, now: int) {
    CountAfter(history, now - rule.window) < rule.limit
  }

  lemma SweptDecides(c: Config, ruleOf: string -> Rule, w: World, now: int, k: string)
    requires Fits(c, ruleOf) && Good(c, ruleOf, w) && ruleOf(k).Active() && w.clock <= now
    ensures Decide(ruleOf(k), Times(Cleanup(c, w.st, now).entries, k), now).0.Allowed? <==>
            Admissible(ruleOf(k), Times(w.since, k), now)
  {
    assert KeyInv(ruleOf, w, k);
    CleanupKeeps(c, ruleOf(k), w.st, w.clock, now, k, Times(w.since, k));
    DecidesOnHistory(ruleOf(k), now, now, Times(Cleanup(c, w.st, now).entries, k), Times(w.since, k));
  }

  /** Every request with an active rule decides exactly as the admissions since its key was last
      evicted require. */
  lemma StepDecides(c: Config, ruleOf: string -> Rule, w: World, e: Request, out: Outcome, w': World)
    requires Fits(c, ruleOf) && Good(c, ruleOf, w) && Next(c, ruleOf, w, e, out, w') && ruleOf(e.key).Active()
    ensures out.Allowed? <==> Admissible(ruleOf(e.key), Times(w.since, e.key), e.now)
  {
    GoodIsNonEmpty(c, ruleOf, w);
    var room :| NextWith(c, ruleOf(e.key), w, e, out, room, w');
    SweptDecides(c, ruleOf, w, e.now, e.key);
    AllowEffect(c, ruleOf(e.key), e.key, e.now, w.st, room, w'.st, out);
    assert out == Decide(ruleOf(e.key), Times(Cleanup(c, w.st, e.now).entries, e.key), e.now).0;
  }

  /** Every request keeps the invariant and never evicts its own key. */
  lemma StepKeepsGood(c: Config, ruleOf: string -> Rule, w: World, e: Request, out: Outcome, w': World)
    requires Fits(c, ruleOf) && Good(c, ruleOf, w) && Next(c, ruleOf, w, e, out, w') && e.key != []
    ensures Good(c, ruleOf, w') && e.key !in w'.evicted
  {
    GoodIsNonEmpty(c, ruleOf, w);
    var rule := ruleOf(e.key);
    assert KeyInv(ruleOf, w, e.key);
    if !rule.Active() {
      forall k ensures KeyInv(ruleOf, w', k) {
        assert KeyInv(ruleOf, w, k);
        InactiveKeepsKey(ruleOf, w, e.now, k);
      }
    } else {
      var room :| NextWith(c, rule, w, e, out, room, w');
      AllowEffect(c, rule, e.key, e.now, w.st, room, w'.st, out);
      RequestedKey(c, ruleOf, w, e, out, room, w');
      if c.maxEntries > 0 {
        SizeKept(c, rule, e.key, e.now, w.st, room, w'.st, out);
      }
      forall k ensures KeyInv(ruleOf, w', k) {
        assert KeyInv(ruleOf, w, k);
        if k != e.key {
          OtherKey(c, ruleOf, w, e, out, room, w', k);
        }
      }
    }
  }
}
