/** The three sliding-window limiters. Each keeps a pruned list; its contract speaks of the whole history of accepted
    calls. */
module RateLimits {
  import opened Basics
  import opened SlidingWindow
  import Decimal
  import Keys

  const SECOND := 1_000_000

  function HistoryOf<K>(m: map<K, seq<int>>, key: K): seq<int> {
    if key in m then m[key] else []
  }

  /** What a limiter keeps for one key: a list that decides like the history, in a history that never exceeded the
      cap. */
  ghost predicate Faithful(rows: seq<int>, history: seq<int>, clock: int, w: Window, cap: int) {
    && Agrees(rows, history, clock, w)
    && Chronological(history, clock)
    && Admitted(history, w, cap)
  }

  lemma FaithfulLater(rows: seq<int>, history: seq<int>, clock: int, now: int, w: Window, cap: int)
    requires Faithful(rows, history, clock, w, cap) && clock <= now
    ensures Faithful(rows, history, now, w, cap)
  {
  }

  lemma FaithfulPruned(rows: seq<int>, history: seq<int>, clock: int, now: int, w: Window, cap: int)
    requires Faithful(rows, history, clock, w, cap) && clock <= now
    ensures Recent(rows, now, w) == Recent(history, now, w)
    ensures Faithful(Recent(rows, now, w), history, now, w, cap)
  {
    AgreesAfterPruning(rows, history, clock, now, w);
  }

  lemma FaithfulAccepted(rows: seq<int>, history: seq<int>, now: int, w: Window, cap: int, cap': int)
    requires Faithful(rows, history, now, w, cap) && cap <= cap' && |Recent(history, now, w)| < cap'
    ensures Faithful(rows + [now], history + [now], now, w, cap')
  {
    AgreesAfterAccepting(rows, history, now, w);
    AdmittedSnoc(history, now, w, cap');
  }

  // ----- LLM calls: a dictionary of lists, rewritten only when a call is accepted -----

  datatype RiskEvent = RiskEvent(userId: int, ip: string, eventType: string)

  function WindowKey(name: string, ident: string): string {
    name + (":" + ident)
  }

  /** Names without a colon keep the keys of different limiters apart, even when the identity holds colons (IPv6). */
  lemma WindowKeyInjective(name: string, ident: string, name': string, ident': string)
    requires ':' !in name && ':' !in name'
    requires WindowKey(name, ident) == WindowKey(name', ident')
    ensures name == name' && ident == ident'
  {
    Keys.SplitAtColon(name, name', ident, ident');
  }

  const USER_MINUTE := "llm_user_minute"
  const IP_MINUTE := "llm_ip_minute"
  const PROVIDER_MINUTE := "llm_provider_minute"

  class LlmLimiter {
    var windows: map<string, seq<int>>
    var riskEvents: seq<RiskEvent>
    ghost var history: map<string, seq<int>>
    ghost var caps: map<string, int>
    ghost var clock: int

    /** Every caller passes 60 seconds; a call exactly one window old no longer counts. */
    static const WINDOW := Window(60 * SECOND, false)

    static ghost function CapOf(caps: map<string, int>, key: string): int {
      if key in caps then caps[key] else 0
    }

    ghost predicate Valid()
      reads this
    {
      forall key :: Faithful(HistoryOf(windows, key), HistoryOf(history, key), clock, WINDOW, CapOf(caps, key))
    }

    constructor ()
      ensures Valid() && history == map[] && riskEvents == []
    {
      windows, riskEvents := map[], [];
      history, caps, clock := map[], map[], 0;
    }

    /** Room for one more call of this key. */
    static ghost predicate Room(history: map<string, seq<int>>, name: string, ident: string, now: int, limit: int) {
      limit <= 0 || |Recent(HistoryOf(history, WindowKey(name, ident)), now, WINDOW)| < limit
    }

    static ghost function Recorded(history: map<string, seq<int>>, name: string, ident: string, now: int, limit: int):
      map<string, seq<int>>
    {
      if limit <= 0 then history
      else history[WindowKey(name, ident) := HistoryOf(history, WindowKey(name, ident)) + [now]]
    }

    /** A non-positive limit switches the limiter off. A refused call leaves the stored list as it was. */
    method LimitKey(now: int, name: string, ident: string, limit: int) returns (allowed: bool)
      requires Valid() && clock <= now
      modifies this
      ensures Valid() && clock == now && riskEvents == old(riskEvents)
      ensures allowed <==> Room(old(history), name, ident, now, limit)
      ensures history == if allowed then Recorded(old(history), name, ident, now, limit) else old(history)
      ensures var key := WindowKey(name, ident);
              caps == if allowed && limit > 0 then old(caps)[key := Max(CapOf(old(caps), key), limit)] else old(caps)
    {
      ghost var before := clock;
      clock := now;
      forall k ensures Faithful(HistoryOf(windows, k), HistoryOf(history, k), now, WINDOW, CapOf(caps, k)) {
        FaithfulLater(HistoryOf(windows, k), HistoryOf(history, k), before, now, WINDOW, CapOf(caps, k));
      }
      if limit <= 0 {
        return true;
      }
      var key := WindowKey(name, ident);
      var rows := Pruned(HistoryOf(windows, key), now);
      ghost var past, cap := HistoryOf(history, key), CapOf(caps, key);
      FaithfulPruned(HistoryOf(windows, key), past, now, now, WINDOW, cap);
      if |rows| >= limit {
        return false;
      }
      FaithfulAccepted(rows, past, now, WINDOW, cap, Max(cap, limit));
      windows := windows[key := rows + [now]];
      history := history[key := past + [now]];
      caps := caps[key := Max(cap, limit)];
      forall k ensures Faithful(HistoryOf(windows, k), HistoryOf(history, k), now, WINDOW, CapOf(caps, k)) {
        if k != key {
          assert Faithful(HistoryOf(old(windows), k), HistoryOf(old(history), k), now, WINDOW, CapOf(old(caps), k));
        }
      }
      return true;
    }

    /** The list comprehension over the stored times. */
    static method Pruned(stored: seq<int>, now: int) returns (rows: seq<int>)
      ensures rows == Recent(stored, now, WINDOW)
    {
      rows := [];
      for i := 0 to |stored|
        invariant rows == Recent(stored[..i], now, WINDOW)
      {
        assert stored[..i + 1] == stored[..i] + [stored[i]];
        RecentSnoc(stored[..i], stored[i], now, WINDOW);
        if now - stored[i] < WINDOW.length {
          rows := rows + [stored[i]];
        }
      }
      assert stored[..|stored|] == stored;
    }

    /** A request goes through exactly when all three limiters had room in the state before it. A refused one has still
        used up a slot of every limiter in front of the one that refused it, and leaves one risk event. */
    method EnforceRiskLimits(t1: int, t2: int, t3: int, userId: int, ip: string, provider: string,
                             userLimit: int, ipLimit: int, providerLimit: int)
      returns (allowed: bool)
      requires Valid() && clock <= t1 <= t2 <= t3
      modifies this
      ensures Valid() && t1 <= clock <= t3
      ensures var user := Decimal.PrintInt(userId);
              var h := old(history);
              var userRoom := Room(h, USER_MINUTE, user, t1, userLimit);
              var ipRoom := ip == "" || Room(h, IP_MINUTE, ip, t2, ipLimit);
              var providerRoom := Room(h, PROVIDER_MINUTE, provider, t3, providerLimit);
              var h1 := Recorded(h, USER_MINUTE, user, t1, userLimit);
              var h2 := if ip == "" then h1 else Recorded(h1, IP_MINUTE, ip, t2, ipLimit);
              && (allowed <==> userRoom && ipRoom && providerRoom)
              && (history == if !userRoom then h else if !ipRoom then h1 else if !providerRoom then h2
                             else Recorded(h2, PROVIDER_MINUTE, provider, t3, providerLimit))
      ensures riskEvents == old(riskEvents) + if allowed then [] else [RiskEvent(userId, ip, "rate_limited")]
    {
      var user := Decimal.PrintInt(userId);
      ghost var h := history;
      DifferentLimiters(user, ip, provider);
      allowed := LimitKey(t1, USER_MINUTE, user, userLimit);
      if allowed && ip != "" {
        RoomElsewhere(h, USER_MINUTE, user, userLimit, t1, IP_MINUTE, ip, ipLimit, t2);
        RoomElsewhere(history, IP_MINUTE, ip, ipLimit, t2, PROVIDER_MINUTE, provider, providerLimit, t3);
        allowed := LimitKey(t2, IP_MINUTE, ip, ipLimit);
      }
      if allowed {
        RoomElsewhere(h, USER_MINUTE, user, userLimit, t1, PROVIDER_MINUTE, provider, providerLimit, t3);
        allowed := LimitKey(t3, PROVIDER_MINUTE, provider, providerLimit);
      }
      if !allowed {
        riskEvents := riskEvents + [RiskEvent(userId, ip, "rate_limited")];
      }
    }

    static lemma DifferentLimiters(user: string, ip: string, provider: string)
      ensures WindowKey(USER_MINUTE, user) != WindowKey(IP_MINUTE, ip)
      ensures WindowKey(USER_MINUTE, user) != WindowKey(PROVIDER_MINUTE, provider)
      ensures WindowKey(IP_MINUTE, ip) != WindowKey(PROVIDER_MINUTE, provider)
    {
      assert WindowKey(USER_MINUTE, user)[4] == 'u';
      assert WindowKey(IP_MINUTE, ip)[4] == 'i';
      assert WindowKey(PROVIDER_MINUTE, provider)[4] == 'p';
    }

    /** What one limiter records leaves the others' decisions alone. */
    static lemma RoomElsewhere(h: map<string, seq<int>>, n1: string, id1: string, limit1: int, t: int,
                               n2: string, id2: string, limit2: int, later: int)
      requires WindowKey(n1, id1) != WindowKey(n2, id2)
      ensures Room(Recorded(h, n1, id1, t, limit1), n2, id2, later, limit2) <==> Room(h, n2, id2, later, limit2)
    {
    }

    /** In every state the limiter can reach, no minute holds more calls of a key than the largest limit ever in
        force. */
    lemma NeverOverfull(key: string, T: int)
      requires Valid()
      ensures |Inside(HistoryOf(history, key), T, 60_000_000, false)| <= Max(0, CapOf(caps, key))
    {
      var past, cap := HistoryOf(history, key), CapOf(caps, key);
      assert Faithful(HistoryOf(windows, key), past, clock, WINDOW, cap);
      AdmittedMore(past, WINDOW, cap, Max(0, cap));
      NoWindowOverfull(past, clock, WINDOW, Max(0, cap), T);
      SpanCounts(past, T, WINDOW);
    }

    /** Room means that the limiter is off, or that fewer than limit accepted calls lie less than a minute back. */
    static lemma RoomMeans(history: map<string, seq<int>>, name: string, ident: string, now: int, limit: int)
      ensures Room(history, name, ident, now, limit) <==>
              limit <= 0 || |Within(HistoryOf(history, WindowKey(name, ident)), now, 60_000_000, false)| < limit
    {
      RecentCounts(HistoryOf(history, WindowKey(name, ident)), now, WINDOW);
    }
  }

  lemma AdmittedMore(history: seq<int>, w: Window, cap: int, cap': int)
    requires Admitted(history, w, cap) && cap <= cap'
    ensures Admitted(history, w, cap')
  {
  }

  // ----- key exports: a deque per user, popped from the front -----

  class ExportLimiter {
    var buckets: map<int, seq<int>>
    ghost var history: map<int, seq<int>>
    ghost var clock: int

    /** Fifteen minutes; a call exactly one window old still counts. */
    static const WINDOW := Window(15 * 60 * SECOND, true)
    static const MAX_PER_WINDOW := 8

    /** The deque stays in order of time, so its stale calls are the ones at its front. */
    ghost predicate Valid()
      reads this
    {
      forall user :: Kept(HistoryOf(buckets, user), HistoryOf(history, user), clock)
    }

    static ghost predicate Kept(bucket: seq<int>, past: seq<int>, clock: int) {
      Chronological(bucket, clock) && Faithful(bucket, past, clock, WINDOW, MAX_PER_WINDOW)
    }

    constructor ()
      ensures Valid() && history == map[]
    {
      buckets, history, clock := map[], map[], 0;
    }

    method RateCheck(now: int, user: int) returns (allowed: bool)
      requires Valid() && clock <= now
      modifies this
      ensures Valid() && clock == now
      ensures var past := HistoryOf(old(history), user);
              && (allowed <==> |Within(past, now, 900_000_000, true)| < 8)
              && (history == if allowed then old(history)[user := past + [now]] else old(history))
    {
      hide Within, Recent, Kept, Faithful, Chronological;
      var stored := HistoryOf(buckets, user);
      ghost var past := HistoryOf(history, user);
      PruneAndAccept(stored, past, clock, now);
      RecentCounts(past, now, WINDOW);
      var dq := PopFront(stored, now);
      allowed := |dq| < MAX_PER_WINDOW;
      if allowed {
        dq := dq + [now];
        history := history[user := past + [now]];
      }
      StoreKeeps(buckets, old(history), clock, history, user, dq, now);
      clock := now;
      buckets := buckets[user := dq];
    }

    /** The two ways a call can leave its user's deque. */
    static lemma PruneAndAccept(stored: seq<int>, past: seq<int>, clock: int, now: int)
      requires Kept(stored, past, clock) && clock <= now
      ensures Chronological(stored, now) && Recent(stored, now, WINDOW) == Recent(past, now, WINDOW)
      ensures Chronological(Recent(stored, now, WINDOW), now) ==> Kept(Recent(stored, now, WINDOW), past, now)
      ensures Chronological(Recent(stored, now, WINDOW), now) && |Recent(past, now, WINDOW)| < MAX_PER_WINDOW ==>
                Kept(Recent(stored, now, WINDOW) + [now], past + [now], now)
    {
      FaithfulPruned(stored, past, clock, now, WINDOW, MAX_PER_WINDOW);
      if |Recent(past, now, WINDOW)| < MAX_PER_WINDOW {
        FaithfulAccepted(Recent(stored, now, WINDOW), past, now, WINDOW, MAX_PER_WINDOW, MAX_PER_WINDOW);
      }
    }

    /** Storing one user's deque leaves the others' faithful. */
    static lemma StoreKeeps(buckets: map<int, seq<int>>, history: map<int, seq<int>>, clock: int,
                            history': map<int, seq<int>>, user: int, dq: seq<int>, now: int)
      requires forall u :: Kept(HistoryOf(buckets, u), HistoryOf(history, u), clock)
      requires clock <= now && Kept(dq, HistoryOf(history', user), now)
      requires forall u :: u != user ==> HistoryOf(history', u) == HistoryOf(history, u)
      ensures forall u :: Kept(HistoryOf(buckets[user := dq], u), HistoryOf(history', u), now)
    {
      forall u ensures Kept(HistoryOf(buckets[user := dq], u), HistoryOf(history', u), now) {
        if u != user {
          assert Kept(HistoryOf(buckets, u), HistoryOf(history, u), clock);
        }
      }
    }

    /** Popping stale calls off the front leaves exactly the recent ones, because the deque is in order of time. */
    static method PopFront(stored: seq<int>, now: int) returns (dq: seq<int>)
      requires Chronological(stored, now)
      ensures dq == Recent(stored, now, WINDOW) && Chronological(dq, now)
    {
      dq := stored;
      while dq != [] && now - dq[0] > WINDOW.length
        invariant Chronological(dq, now)
        invariant Recent(dq, now, WINDOW) == Recent(stored, now, WINDOW)
      {
        PopStale(dq, now, WINDOW);
        dq := dq[1..];
      }
      RecentOfFresh(dq, now, WINDOW);
    }

    /** In every reachable state, no quarter of an hour holds more than eight exports of one user. */
    lemma NeverOverfull(user: int, T: int)
      requires Valid()
      ensures |Inside(HistoryOf(history, user), T, 900_000_000, true)| <= 8
    {
      assert Kept(HistoryOf(buckets, user), HistoryOf(history, user), clock);
      NoWindowOverfull(HistoryOf(history, user), clock, WINDOW, MAX_PER_WINDOW, T);
      SpanCounts(HistoryOf(history, user), T, WINDOW);
    }
  }

  // ----- public contact form: a bucket filtered in place, also when the call is refused -----

  class ContactLimiter {
    var buckets: map<string, seq<int>>
    const w: Window
    const limit: int
    ghost var history: map<string, seq<int>>
    ghost var clock: int

    ghost predicate Valid()
      reads this
    {
      && !w.closed
      && forall key :: Faithful(HistoryOf(buckets, key), HistoryOf(history, key), clock, w, limit)
    }

    constructor (windowSeconds: int, limit: int)
      ensures Valid() && history == map[] && this.limit == limit && w == Window(windowSeconds * 1_000_000, false)
    {
      buckets, history, clock := map[], map[], 0;
      this.limit := limit;
      w := Window(windowSeconds * SECOND, false);
    }

    method RateAllow(now: int, key: string) returns (allowed: bool)
      requires Valid() && clock <= now
      modifies this
      ensures Valid() && clock == now
      ensures var past := HistoryOf(old(history), key);
              && (allowed <==> |Within(past, now, w.length, false)| < limit)
              && (history == if allowed then old(history)[key := past + [now]] else old(history))
    {
      var bucket := HistoryOf(buckets, key);
      ghost var past := HistoryOf(history, key);
      FaithfulPruned(bucket, past, clock, now, w, limit);
      RecentCounts(past, now, w);
      var kept := After(bucket, now, w);
      ghost var others := buckets;
      forall k ensures Faithful(HistoryOf(others, k), HistoryOf(history, k), now, w, limit) {
        FaithfulLater(HistoryOf(others, k), HistoryOf(history, k), clock, now, w, limit);
      }
      clock := now;
      allowed := |kept| < limit;
      if allowed {
        FaithfulAccepted(kept, past, now, w, limit, limit);
        kept := kept + [now];
        history := history[key := past + [now]];
      }
      buckets := buckets[key := kept];
      forall k ensures Faithful(HistoryOf(buckets, k), HistoryOf(history, k), now, w, limit) {
        if k != key {
          assert Faithful(HistoryOf(others, k), HistoryOf(old(history), k), now, w, limit);
        }
      }
    }

    /** Calls no later than the cutoff are dropped from the bucket. */
    static method After(bucket: seq<int>, now: int, w: Window) returns (kept: seq<int>)
      requires !w.closed
      ensures kept == Recent(bucket, now, w)
    {
      var cutoff := now - w.length;
      kept := [];
      for i := 0 to |bucket|
        invariant kept == Recent(bucket[..i], now, w)
      {
        assert bucket[..i + 1] == bucket[..i] + [bucket[i]];
        RecentSnoc(bucket[..i], bucket[i], now, w);
        if bucket[i] > cutoff {
          kept := kept + [bucket[i]];
        }
      }
      assert bucket[..|bucket|] == bucket;
    }

    /** In every reachable state, no window holds more submissions of one client than the limit. */
    lemma NeverOverfull(key: string, T: int)
      requires Valid() && 0 <= limit
      ensures |Inside(HistoryOf(history, key), T, w.length, false)| <= limit
    {
      assert Faithful(HistoryOf(buckets, key), HistoryOf(history, key), clock, w, limit);
      NoWindowOverfull(HistoryOf(history, key), clock, w, limit, T);
      SpanCounts(HistoryOf(history, key), T, w);
    }
  }
}
