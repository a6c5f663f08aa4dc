/** The limiter as it runs: the table of timestamp slices trimmed, extended, swept and evicted in
    place. Each method is proved against RateLimit. */
module RateLimiter {
  import opened Prelude
  import opened RateLimit

  lemma {:induction false} FreshByIndex(ts: seq<int>, cutoff: int, n: nat)
    requires n <= |ts| && (forall i :: 0 <= i < n ==> ts[i] <= cutoff) && (n == |ts| || ts[n] > cutoff)
    ensures Fresh(ts, cutoff) == ts[n..]
  {
    if n > 0 {
      FreshByIndex(ts[1..], cutoff, n - 1);
      assert ts[1..][n - 1..] == ts[n..];
    }
  }

  lemma FreshIsSuffix(ts: seq<int>, cutoff: int)
    ensures |Fresh(ts, cutoff)| == |ts| ==> Fresh(ts, cutoff) == ts
  {
    if ts != [] && ts[0] <= cutoff {
      assert |Fresh(ts[1..], cutoff)| <= |ts[1..]|;
    }
  }

  /** The header value: the duration in seconds, rounded up, at least one. */
  function RetryAfterSeconds(d: int): (s: int)
    ensures s >= 1 && s * SECOND >= d
    ensures d > SECOND ==> (s - 1) * SECOND < d
  {
    var up := if d % SECOND == 0 then d / SECOND else d / SECOND + 1;
    if up < 1 then 1 else up
  }

  /** The sweep looks as far back as the widest rule, an hour if none has a window, and runs at
      most once per half of that, or per minute if that is longer. */
  method Configure(windows: seq<int>, maxEntries: int) returns (c: Config)
    requires windows != []
    ensures forall w :: w in windows ==> w <= c.maxWindow
    ensures c.maxWindow > 0 && (c.maxWindow in windows || c.maxWindow == HOUR)
    ensures c.cleanupInterval == Max(c.maxWindow / 2, MINUTE) && c.maxEntries == maxEntries
  {
    var maxWindow := windows[0];
    for i := 1 to |windows|
      invariant maxWindow in windows && forall j :: 0 <= j < i ==> windows[j] <= maxWindow
    {
      if windows[i] > maxWindow {
        maxWindow := windows[i];
      }
    }
    if maxWindow <= 0 {
      maxWindow := HOUR;
    }
    var cleanupInterval := maxWindow / 2;
    if cleanupInterval < MINUTE {
      cleanupInterval := MINUTE;
    }
    c := Config(maxWindow, cleanupInterval, maxEntries);
  }

  class Limiter {
    const config: Config
    var entries: map<string, seq<int>>
    var lastCleanup: Option<int>

    ghost function View(): State
      reads this
    {
      State(entries, lastCleanup)
    }

    constructor (config: Config)
      ensures View() == State(map[], None) && this.config == config
    {
      this.config := config;
      entries, lastCleanup := map[], None;
    }

    static method Trim(timestamps: seq<int>, cutoff: int) returns (kept: seq<int>)
      ensures kept == Fresh(timestamps, cutoff)
    {
      var keepFrom := 0;
      while keepFrom < |timestamps| && timestamps[keepFrom] <= cutoff
        invariant keepFrom <= |timestamps| && forall i :: 0 <= i < keepFrom ==> timestamps[i] <= cutoff
      {
        keepFrom := keepFrom + 1;
      }
      FreshByIndex(timestamps, cutoff, keepFrom);
      kept := timestamps[keepFrom..];
    }

    method CleanupAt(now: int)
      modifies this
      ensures View() == Cleanup(config, old(View()), now)
    {
      if lastCleanup.Some? && now - lastCleanup.value < config.cleanupInterval {
        return;
      }
      var cutoff := now - config.maxWindow;
      ghost var was := entries;
      var todo := entries.Keys;
      while todo != {}
        invariant todo <= was.Keys && entries.Keys <= was.Keys && lastCleanup == old(lastCleanup)
        invariant forall k :: k in todo ==> k in entries && entries[k] == was[k]
        invariant forall k :: k in was && k !in todo ==>
          if Fresh(was[k], cutoff) == [] then k !in entries else k in entries && entries[k] == Fresh(was[k], cutoff)
        decreases todo
      {
        var key :| key in todo;
        var kept := Trim(entries[key], cutoff);
        if |kept| == 0 {
          entries := entries - {key};
        } else if |kept| < |entries[key]| {
          entries := entries[key := kept];
        } else {
          FreshIsSuffix(was[key], cutoff);
        }
        todo := todo - {key};
      }
      assert entries == Swept(was, cutoff);
      lastCleanup := Some(now);
    }

    method EnsureCapacity(key: string)
      modifies this`entries
      ensures MakesRoom(config, old(entries), key, entries)
    {
      if key == [] || config.maxEntries <= 0 {
        return;
      }
      if key in entries || |entries| < config.maxEntries {
        return;
      }
      var oldestKey: Option<string> := None;
      var oldestSeen := 0;
      ghost var was := entries;
      var todo := entries.Keys;
      while todo != {}
        invariant todo <= was.Keys
        invariant entries == map k | k in was && (k in todo || was[k] != []) :: was[k]
        invariant oldestKey.None? ==> forall k :: k in was && k !in todo ==> was[k] == []
        invariant oldestKey.Some? ==>
          && oldestKey.value in was && was[oldestKey.value] != []
          && oldestSeen == was[oldestKey.value][|was[oldestKey.value]| - 1]
          && forall k :: k in was && k !in todo && was[k] != [] ==> oldestSeen <= was[k][|was[k]| - 1]
        decreases todo
      {
        var existing :| existing in todo;
        var timestamps := entries[existing];
        todo := todo - {existing};
        if |timestamps| == 0 {
          entries := entries - {existing};
          continue;
        }
        var lastSeen := timestamps[|timestamps| - 1];
        if oldestKey.None? || lastSeen < oldestSeen {
          oldestKey, oldestSeen := Some(existing), lastSeen;
        }
      }
      assert entries == NonEmpty(was);
      if oldestKey.Some? {
        assert Oldest(was, oldestKey.value);
        entries := entries - {oldestKey.value};
      }
    }

    method Allow(rule: Rule, key: string, now: int) returns (out: Outcome)
      modifies this
      ensures !rule.Active() ==> out == Allowed && View() == old(View())
      ensures rule.Active() ==> exists room :: AllowWith(config, rule, key, now, old(View()), room, View(), out)
    {
      if rule.limit <= 0 || rule.window <= 0 {
        return Allowed;
      }
      CleanupAt(now);
      if |Times(entries, key)| == 0 {
        EnsureCapacity(key);
      }
      ghost var room := entries;
      var timestamps := Trim(Times(entries, key), now - rule.window);
      if |timestamps| >= rule.limit {
        var retryAfter := timestamps[0] + rule.window - now;
        if retryAfter < SECOND {
          retryAfter := SECOND;
        }
        entries := entries[key := timestamps];
        out := Denied(retryAfter);
      } else {
        entries := entries[key := timestamps + [now]];
        out := Allowed;
      }
      assert AllowWith(config, rule, key, now, old(View()), room, View(), out);
    }
  }
}
