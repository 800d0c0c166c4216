/**
 The fixed-window limiter on Redis. Runs are failure-free and only increment; a request is
 admitted when its count is at most `max`.
 */
module RateLimit {
  import opened Base
  import opened RedisStore

  predicate AllNumbers(store: Store<string>)
  {
    forall k | k in store :: store[k].value.Number?
  }

  /** How long a window lives: the duration rounded up to whole seconds. */
  function Span(duration: Time): Time
  {
    CeilDiv(duration, 1000) * 1000
  }

  /** INCR, then EXPIRE if the counter was just created. */
  function Bump(store: Store<string>, k: string, now: Time, duration: Time): (Store<string>, int)
    requires AllNumbers(store)
  {
    var count := Count(store, k, now) + 1;
    var s1 := Incr(store, k, now);
    (if count == 1 then Expire(s1, k, now, CeilDiv(duration, 1000)) else s1, count)
  }

  class RedisRateStore {
    const prefix: string
    const client: Redis<string>

    constructor (prefix: string, client: Redis<string>)
      ensures this.prefix == prefix && this.client == client
    {
      this.prefix, this.client := prefix, client;
    }

    method Increment(key: string, duration: Time, requestTime: Time) returns (count: int, nextReset: int, start: Time)
      requires AllNumbers(client.store)
      modifies client`store
      ensures AllNumbers(client.store)
      ensures (client.store, count) == Bump(old(client.store), prefix + ":" + key, client.now, duration)
      ensures var k, was := prefix + ":" + key, old(client.store);
              var live := k in was && (was[k].expiry.Some? ==> client.now < was[k].expiry.value);
              && count == (if live then was[k].value.n + 1 else 1)
              && client.store.Keys == was.Keys + {k} && (forall x | x in was && x != k :: client.store[x] == was[x])
              && client.store[k] ==
                 Entry(Number(count), if count == 1 then Some(client.now + CeilDiv(duration, 1000) * 1000)
                       else was[k].expiry)
      ensures start == requestTime
      ensures var expiry := client.store[prefix + ":" + key].expiry;
              if expiry.Some? && expiry.value - client.now >= 500
              then -500 <= nextReset - requestTime - (expiry.value - client.now) <= 500
              else nextReset == requestTime + duration
      ensures var ttl := Ttl(client.store, prefix + ":" + key, client.now);
              nextReset == requestTime + (if ttl > 0 then ttl * 1000 else duration)
    {
      var k := prefix + ":" + key;
      count := client.Increment(k);
      if count == 1 { client.SetExpiry(k, CeilDiv(duration, 1000)); }
      var ttl := Ttl(client.store, k, client.now);
      nextReset := requestTime + (if ttl > 0 then ttl * 1000 else duration);
      start := requestTime;
    }
  }

  // --- Logs of requests ---

  datatype Hit = Hit(key: string, at: Time)

  predicate Ordered(log: seq<Hit>)
  {
    forall i, j | 0 <= i < j < |log| :: log[i].at <= log[j].at
  }

  function After(log: seq<Hit>, duration: Time): (store: Store<string>)
    ensures AllNumbers(store)
  {
    if log == [] then map[]
    else Bump(After(log[..|log| - 1], duration), log[|log| - 1].key, log[|log| - 1].at, duration).0
  }

  function CountOf(log: seq<Hit>, duration: Time, k: nat): int
    requires k < |log|
  {
    Bump(After(log[..k], duration), log[k].key, log[k].at, duration).1
  }

  predicate AdmittedAt(log: seq<Hit>, duration: Time, max: nat, k: nat, key: string)
  {
    k < |log| && log[k].key == key && CountOf(log, duration, k) <= max
  }

  function Admissions(log: seq<Hit>, duration: Time, max: nat, lo: nat, hi: nat, key: string): nat
    requires hi <= |log|
  {
    if hi <= lo then 0
    else Admissions(log, duration, max, lo, hi - 1, key) +
         (if AdmittedAt(log, duration, max, hi - 1, key) then 1 else 0)
  }

  lemma AfterStep(log: seq<Hit>, duration: Time, k: nat)
    requires k < |log|
    ensures After(log[..k + 1], duration) == Bump(After(log[..k], duration), log[k].key, log[k].at, duration).0
  {
    assert log[..k + 1][..k] == log[..k];
  }

  // --- What a count says ---

  /** Requests of the key among calls `lo..hi`. */
  function HitsOf(log: seq<Hit>, key: string, lo: nat, hi: nat): nat
    requires hi <= |log|
  {
    if hi <= lo then 0 else HitsOf(log, key, lo, hi - 1) + (if log[hi - 1].key == key then 1 else 0)
  }

  /** Request `i` of the key found no window open. */
  predicate Opens(log: seq<Hit>, duration: Time, i: nat, key: string)
  {
    i < |log| && log[i].key == key && CountOf(log, duration, i) == 1
  }

  /** Windows opened before `k` are over by then. */
  ghost predicate AllOver(log: seq<Hit>, duration: Time, k: nat, key: string, now: Time)
  {
    forall i {:trigger Opens(log, duration, i, key)} | 0 <= i < k && Opens(log, duration, i, key) ::
      log[i].at + Span(duration) <= now
  }

  /** Before call `k` the key is in the window that request `j` opened, the last to do so. */
  ghost predicate InWindow(log: seq<Hit>, duration: Time, k: nat, key: string, j: nat)
    requires k <= |log|
  {
    && j < k && Opens(log, duration, j, key) && AllOver(log, duration, j, key, log[j].at)
    && (forall i {:trigger Opens(log, duration, i, key)} | j < i < k :: !Opens(log, duration, i, key))
    && HitsOf(log, key, j, k) >= 1
    && var store := After(log[..k], duration);
       key in store && store[key] == Entry(Number(HitsOf(log, key, j, k)), Some(log[j].at + Span(duration)))
  }

  lemma WindowStays(log: seq<Hit>, duration: Time, k: nat, key: string, j: nat)
    requires k < |log| && InWindow(log, duration, k, key, j)
    requires log[k].key != key || log[k].at < log[j].at + Span(duration)
    ensures InWindow(log, duration, k + 1, key, j)
    ensures log[k].key == key ==> CountOf(log, duration, k) == HitsOf(log, key, j, k + 1)
  {
    AfterStep(log, duration, k);
  }

  lemma WindowOpens(log: seq<Hit>, duration: Time, k: nat, key: string)
    requires k < |log| && log[k].key == key && !Live(After(log[..k], duration), key, log[k].at)
    requires AllOver(log, duration, k, key, log[k].at)
    ensures InWindow(log, duration, k + 1, key, k)
  {
    AfterStep(log, duration, k);
    assert HitsOf(log, key, k, k) == 0;
  }

  lemma WindowEnds(log: seq<Hit>, duration: Time, k: nat, key: string, j: nat)
    requires k < |log| && InWindow(log, duration, k, key, j) && log[j].at + Span(duration) <= log[k].at
    ensures AllOver(log, duration, k, key, log[k].at) && !Live(After(log[..k], duration), key, log[k].at)
  {
  }

  /** The window a request falls in: the one open, or its own. */
  lemma WindowAt(log: seq<Hit>, duration: Time, k: nat, key: string, before: Option<nat>) returns (j: nat)
    requires k < |log| && log[k].key == key
    requires before.Some? ==> InWindow(log, duration, k, key, before.value)
    requires before.None? ==> key !in After(log[..k], duration) && forall i | 0 <= i < k :: log[i].key != key
    ensures InWindow(log, duration, k + 1, key, j) && CountOf(log, duration, k) == HitsOf(log, key, j, k + 1)
    ensures j < k ==> log[k].at < log[j].at + Span(duration)
  {
    if before.Some? && log[k].at < log[before.value].at + Span(duration) {
      j := before.value;
      WindowStays(log, duration, k, key, j);
    } else {
      j := k;
      if before.Some? { WindowEnds(log, duration, k, key, before.value); }
      WindowOpens(log, duration, k, key);
      assert HitsOf(log, key, k, k) == 0;
    }
  }

  lemma OtherKeyPasses(log: seq<Hit>, duration: Time, k: nat, key: string)
    requires k < |log| && log[k].key != key && key !in After(log[..k], duration)
    ensures key !in After(log[..k + 1], duration)
  {
    AfterStep(log, duration, k);
  }

  /** The window the key is in, if it was ever hit. */
  ghost predicate WindowIs(log: seq<Hit>, duration: Time, k: nat, key: string, j: Option<nat>)
    requires k <= |log|
  {
    match j
    case Some(w) => InWindow(log, duration, k, key, w)
    case None => key !in After(log[..k], duration) && forall i | 0 <= i < k :: log[i].key != key
  }

  lemma WindowNext(log: seq<Hit>, duration: Time, k: nat, key: string, j: Option<nat>) returns (next: Option<nat>)
    requires k < |log| && WindowIs(log, duration, k, key, j)
    ensures WindowIs(log, duration, k + 1, key, next)
  {
    next := j;
    if log[k].key == key {
      var w := WindowAt(log, duration, k, key, j);
      next := Some(w);
    } else if j.Some? {
      WindowStays(log, duration, k, key, j.value);
    } else {
      OtherKeyPasses(log, duration, k, key);
    }
  }

  lemma {:induction false} WindowBefore(log: seq<Hit>, duration: Time, k: nat, key: string) returns (j: Option<nat>)
    requires k <= |log|
    ensures WindowIs(log, duration, k, key, j)
  {
    j := None;
    if k > 0 {
      var before := WindowBefore(log, duration, k - 1, key);
      j := WindowNext(log, duration, k - 1, key, before);
    }
  }

  /**
   A count is the number of requests of its own key since its window opened: with the request
   that found no window open, and all within the duration, rounded up to seconds, of it.
   */
  lemma CountsOwnWindow(log: seq<Hit>, duration: Time, k: nat) returns (j: nat)
    requires k < |log|
    ensures j <= k && Opens(log, duration, j, log[k].key)
    ensures CountOf(log, duration, k) == HitsOf(log, log[k].key, j, k + 1)
    ensures j < k ==> log[k].at < log[j].at + CeilDiv(duration, 1000) * 1000
    ensures forall i | 0 <= i < j && Opens(log, duration, i, log[k].key) ::
              log[i].at + CeilDiv(duration, 1000) * 1000 <= log[j].at
  {
    var before := WindowBefore(log, duration, k, log[k].key);
    j := WindowAt(log, duration, k, log[k].key, before);
    assert AllOver(log, duration, j, log[k].key, log[j].at);
  }

  /** Every counter is positive and expires: none is ever left behind without a window. */
  predicate Windowed(store: Store<string>, key: string)
  {
    key in store ==> store[key].value.Number? && store[key].value.n >= 1 && store[key].expiry.Some?
  }

  lemma {:induction false} AlwaysWindowed(log: seq<Hit>, duration: Time, k: nat, key: string)
    requires k <= |log|
    ensures Windowed(After(log[..k], duration), key)
  {
    if k > 0 {
      AlwaysWindowed(log, duration, k - 1, key);
      AfterStep(log, duration, k - 1);
    }
  }

  /** Admissions the current counter of the key still has to give. */
  function Left(store: Store<string>, key: string, max: nat): nat
  {
    if key in store && store[key].value.Number? && 0 <= store[key].value.n <= max then max - store[key].value.n else 0
  }

  /** The key's window was opened at or after `a`, so it outlasts `a + duration`. */
  predicate OpenedSince(store: Store<string>, key: string, a: Time, duration: Time)
  {
    key in store && store[key].expiry.Some? && store[key].expiry.value >= a + duration
  }

  predicate Spent(store0: Store<string>, store: Store<string>, key: string, admitted: nat, a: Time, duration: Time,
                  max: nat)
  {
    || (admitted + Left(store, key, max) <= Left(store0, key, max) && (key in store <==> key in store0))
    || (OpenedSince(store, key, a, duration) && store[key].value.Number? && 0 <= store[key].value.n
        && admitted <= Left(store0, key, max) + (if store[key].value.n <= max then store[key].value.n else max))
  }

  lemma SpanCovers(duration: Time)
    ensures Span(duration) >= duration
  {
  }

  lemma SpendStep(store0: Store<string>, store: Store<string>, h: Hit, key: string, admitted: nat, a: Time,
                  duration: Time, max: nat)
    requires AllNumbers(store) && Windowed(store, key) && a <= h.at < a + duration
    requires Spent(store0, store, key, admitted, a, duration, max)
    ensures var (store', count) := Bump(store, h.key, h.at, duration);
            Spent(store0, store', key, admitted + (if h.key == key && count <= max then 1 else 0), a, duration, max)
  {
    SpanCovers(duration);
    var (store', count) := Bump(store, h.key, h.at, duration);
    if h.key == key && !Live(store, key, h.at) {
      assert store'[key] == Entry(Number(1), Some(h.at + Span(duration)));
    }
  }

  lemma {:induction false} AdmissionsAreSpent(log: seq<Hit>, duration: Time, max: nat, lo: nat, hi: nat, key: string,
                                              a: Time)
    requires lo <= hi <= |log| && forall k | lo <= k < hi :: a <= log[k].at < a + duration
    ensures Spent(After(log[..lo], duration), After(log[..hi], duration), key,
                  Admissions(log, duration, max, lo, hi, key), a, duration, max)
    decreases hi
  {
    if lo < hi {
      AdmissionsAreSpent(log, duration, max, lo, hi - 1, key, a);
      AlwaysWindowed(log, duration, hi - 1, key);
      SpendStep(After(log[..lo], duration), After(log[..hi - 1], duration), log[hi - 1], key,
                Admissions(log, duration, max, lo, hi - 1, key), a, duration, max);
      AfterStep(log, duration, hi - 1);
    }
  }

  /**
   In any half-open interval of length `duration`, wherever it starts, at most 2 * max - 1
   requests per key are admitted: a window open at the start has already let one in.
   */
  lemma IntervalBound(log: seq<Hit>, duration: Time, max: nat, lo: nat, hi: nat, key: string, a: Time)
    requires lo <= hi <= |log| && forall k | lo <= k < hi :: a <= log[k].at < a + duration
    ensures Admissions(log, duration, max, lo, hi, key) <= if max == 0 then 0 else 2 * max - 1
  {
    AdmissionsAreSpent(log, duration, max, lo, hi, key, a);
    AlwaysWindowed(log, duration, lo, key);
  }

  // --- The bound is met ---

  const KEY := "ip:::1"

  /** One request opens a window, `max - 1` come in its last millisecond, `max` open the next. */
  function Bursts(duration: Time, max: nat): (log: seq<Hit>)
    requires max >= 1
    ensures |log| == 2 * max
  {
    seq(2 * max, i => Hit(KEY, if i == 0 || duration == 0 then 0 else if i < max then Span(duration) - 1
                          else Span(duration)))
  }

  lemma FirstOfWindow(store: Store<string>, now: Time, duration: Time)
    requires AllNumbers(store) && !Live(store, KEY, now)
    ensures var (store', n) := Bump(store, KEY, now, duration);
            n == 1 && KEY in store' && store'[KEY] == Entry(Number(1), Some(now + Span(duration)))
  {
  }

  lemma NextOfWindow(store: Store<string>, now: Time, duration: Time)
    requires AllNumbers(store) && Live(store, KEY, now) && store[KEY].value.n >= 1
    ensures var (store', n) := Bump(store, KEY, now, duration);
            n == store[KEY].value.n + 1 && KEY in store' && store'[KEY] == Entry(Number(n), store[KEY].expiry)
  {
  }

  lemma BurstAt(duration: Time, max: nat, k: nat)
    requires max >= 1 && duration >= 2 && k < 2 * max
    ensures Bursts(duration, max)[k] ==
            Hit(KEY, if k == 0 then 0 else if k < max then Span(duration) - 1 else Span(duration))
  {
  }

  /** What the counter shows after `k` requests of the bursts. */
  predicate Shows(store: Store<string>, duration: Time, max: nat, k: nat)
  {
    && (k == 0 ==> KEY !in store)
    && (1 <= k <= max ==> KEY in store && store[KEY] == Entry(Number(k), Some(Span(duration))))
    && (max < k ==> KEY in store && store[KEY] == Entry(Number(k - max), Some(2 * Span(duration))))
  }

  /** One more request of the bursts: what it counts and what it leaves. */
  lemma BurstHit(store: Store<string>, duration: Time, max: nat, k: nat)
    requires max >= 1 && duration >= 2 && k < 2 * max
    requires AllNumbers(store) && Shows(store, duration, max, k)
    ensures var (store', n) := Bump(store, KEY, Bursts(duration, max)[k].at, duration);
            n == (if k < max then k + 1 else k + 1 - max) && Shows(store', duration, max, k + 1)
  {
    BurstAt(duration, max, k);
    SpanCovers(duration);
    var at := Bursts(duration, max)[k].at;
    if k == 0 || k == max { FirstOfWindow(store, at, duration); } else { NextOfWindow(store, at, duration); }
  }

  lemma {:induction false} BurstCounts(duration: Time, max: nat, k: nat)
    requires max >= 1 && duration >= 2 && k <= 2 * max
    ensures Shows(After(Bursts(duration, max)[..k], duration), duration, max, k)
  {
    if k > 0 {
      var log := Bursts(duration, max);
      BurstCounts(duration, max, k - 1);
      BurstHit(After(log[..k - 1], duration), duration, max, k - 1);
      AfterStep(log, duration, k - 1);
      assert log[k - 1].key == KEY;
    }
  }

  lemma {:induction false} BurstAdmissions(duration: Time, max: nat, k: nat)
    requires max >= 1 && duration >= 2 && 1 <= k <= 2 * max
    ensures Admissions(Bursts(duration, max), duration, max, 1, k, KEY) == k - 1
  {
    if k > 1 {
      var log := Bursts(duration, max);
      BurstAdmissions(duration, max, k - 1);
      BurstCounts(duration, max, k - 1);
      BurstHit(After(log[..k - 1], duration), duration, max, k - 1);
      assert log[k - 1].key == KEY;
    }
  }

  lemma BoundIsMet(duration: Time, max: nat) returns (log: seq<Hit>, a: Time)
    requires max >= 1 && duration >= 2
    ensures Ordered(log) && |log| == 2 * max && (forall k | 1 <= k < |log| :: a <= log[k].at < a + duration)
    ensures Admissions(log, duration, max, 1, |log|, KEY) == 2 * max - 1
  {
    log := Bursts(duration, max);
    SpanCovers(duration);
    a := Span(duration) - 1;
    BurstAdmissions(duration, max, 2 * max);
  }
}
