/** What the limiter does with its table on one request, said of the remembered times themselves. */
module RateLimitExact {
  import opened Prelude
  import opened RateLimit

  /** `late` are the times from the first one that is after the cutoff. */
  predicate IsLate(ts: seq<int>, cutoff: int, late: seq<int>) {
    && |late| <= |ts| && late == ts[|ts| - |late|..]
    && (forall i :: 0 <= i < |ts| - |late| ==> ts[i] <= cutoff)
    && (|late| > 0 ==> late[0] > cutoff)
  }

  lemma {:induction false} FreshIsLate(ts: seq<int>, cutoff: int)
    ensures IsLate(ts, cutoff, Fresh(ts, cutoff))
  {
    if ts != [] && ts[0] <= cutoff {
      FreshIsLate(ts[1..], cutoff);
      var late := Fresh(ts[1..], cutoff);
      assert ts[1..][|ts| - 1 - |late|..] == ts[|ts| - |late|..];
      assert forall i :: 1 <= i < |ts| ==> ts[i] == ts[1..][i - 1];
    }
  }

  /** When a sweep is due: none was made yet, or the last one is an interval or more ago. */
  predicate Due(c: Config, st: State, now: int) {
    st.lastCleanup == None || now - st.lastCleanup.value >= c.cleanupInterval
  }

  /** A sweep that is not due changes nothing. One that is leaves every key the times within the
      widest window, and no key without any. */
  lemma SweepIsExact(c: Config, st: State, now: int)
    ensures var st' := Cleanup(c, st, now);
      && (!Due(c, st, now) ==> st' == st)
      && (Due(c, st, now) ==>
            && st'.lastCleanup == Some(now)
            && forall k :: k in st.entries || k in st'.entries ==>
                 && IsLate(Times(st.entries, k), now - c.maxWindow, Times(st'.entries, k))
                 && (k in st'.entries <==> |Times(st'.entries, k)| > 0))
  {
    var st' := Cleanup(c, st, now);
    if Due(c, st, now) {
      forall k | k in st.entries || k in st'.entries
        ensures IsLate(Times(st.entries, k), now - c.maxWindow, Times(st'.entries, k))
        ensures k in st'.entries <==> |Times(st'.entries, k)| > 0
      {
        FreshIsLate(Times(st.entries, k), now - c.maxWindow);
        assert Times(st'.entries, k) == Fresh(Times(st.entries, k), now - c.maxWindow);
      }
    }
  }

  /** A key that is remembered longest ago: no other key has an earlier last admission. */
  predicate LeastRecent(entries: map<string, seq<int>>, k: string) {
    && k in entries && |entries[k]| > 0
    && forall j :: j in entries && |entries[j]| > 0 ==>
         entries[k][|entries[k]| - 1] <= entries[j][|entries[j]| - 1]
  }

  /** The table is full for this key, which is not in it. */
  predicate Crowded(c: Config, entries: map<string, seq<int>>, key: string) {
    key != "" && c.maxEntries > 0 && key !in entries && |entries| >= c.maxEntries
  }

  /** Room is made only for a new key in a full table: then the keys without times go, and one that
      is remembered longest ago, and the others stay as they are. */
  lemma RoomIsExact(c: Config, entries: map<string, seq<int>>, key: string, room: map<string, seq<int>>)
    requires Room(c, entries, key, room)
    ensures !Crowded(c, entries, key) ==> room == entries
    ensures Crowded(c, entries, key) ==>
      || (room == map[] && forall k :: k in entries ==> |entries[k]| == 0)
      || exists gone :: LeastRecent(entries, gone)
           && (forall k :: k in room <==> k in entries && |entries[k]| > 0 && k != gone)
           && (forall k :: k in room ==> room[k] == entries[k])
  {
    if Crowded(c, entries, key) && NonEmpty(entries) == map[] {
      forall k | k in entries ensures |entries[k]| == 0 {
        assert k !in NonEmpty(entries);
      }
    } else if Crowded(c, entries, key) {
      var k :| Oldest(entries, k) && room == NonEmpty(entries) - {k};
      assert LeastRecent(entries, k);
    }
  }

  lemma LateIsOne(ts: seq<int>, cutoff: int, a: seq<int>, b: seq<int>)
    requires IsLate(ts, cutoff, a) && IsLate(ts, cutoff, b)
    ensures a == b
  {
    assert forall i :: 0 <= i < |a| ==> a[i] == ts[|ts| - |a| + i];
    assert forall i :: 0 <= i < |b| ==> b[i] == ts[|ts| - |b| + i];
  }

  lemma DecideIs(rule: Rule, ts: seq<int>, now: int, late: seq<int>)
    requires rule.Active() && IsLate(ts, now - rule.window, late)
    ensures var (out, kept) := Decide(rule, ts, now);
      if |late| < rule.limit then out == Allowed && kept == late + [now]
      else out == Denied(Max(late[0] - (now - rule.window), 1_000_000_000)) && kept == late
  {
    FreshIsLate(ts, now - rule.window);
    LateIsOne(ts, now - rule.window, late, Fresh(ts, now - rule.window));
  }

  /** A request drops the times of its key that are outside the window. It is admitted, and its
      time remembered, when fewer than the limit are left; otherwise it is told to wait until the
      first of them leaves the window, at least a second, and only the dropping is remembered. */
  lemma AllowIsExact(c: Config, rule: Rule, key: string, now: int, st: State, room: map<string, seq<int>>,
                     st': State, out: Outcome, late: seq<int>)
    requires rule.Active() && AllowWith(c, rule, key, now, st, room, st', out)
    requires IsLate(Times(room, key), now - rule.window, late)
    ensures Room(c, Cleanup(c, st, now).entries, key, room) && st'.lastCleanup == Cleanup(c, st, now).lastCleanup
    ensures out.Allowed? <==> |late| < rule.limit
    ensures out.Allowed? ==> st'.entries == room[key := late + [now]]
    ensures out.Denied? ==>
      st'.entries == room[key := late] && out.retryAfter == Max(late[0] - (now - rule.window), 1_000_000_000)
  {
    DecideIs(rule, Times(room, key), now, late);
  }
}
