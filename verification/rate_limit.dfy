/** The fixed-window rate limiter: the in-memory store, the Redis script, and the guard that compares the count. */
module RateLimit {
  import opened Wrappers

  type Key = string

  datatype Entry = Entry(count: nat, resetAt: int)

  /** One call of a store: the moment it is made, the client's key and the rule's window. */
  datatype Call = Call(now: int, key: Key, windowMs: int)

  const SWEEP_INTERVAL_MS := 60_000

  // ---------- The counter without sweeping ----------

  type Hits = map<Key, Entry>

  /** A live entry counts up; an absent or expired one starts a new window. */
  function Count(hits: Hits, c: Call): Entry {
    if c.key !in hits || hits[c.key].resetAt <= c.now then Entry(1, c.now + c.windowMs)
    else hits[c.key].(count := hits[c.key].count + 1)
  }

  function Plain(hits: Hits, c: Call): Hits {
    hits[c.key := Count(hits, c)]
  }

  // ---------- The in-memory store ----------

  function Swept(hits: Hits, now: int): Hits {
    map k | k in hits && hits[k].resetAt > now :: hits[k]
  }

  datatype Memory = Memory(hits: Hits, lastSweep: int)

  function SweepIfDue(m: Memory, now: int): Memory {
    if now - m.lastSweep < SWEEP_INTERVAL_MS then m else Memory(Swept(m.hits, now), now)
  }

  function MemoryHit(m: Memory, c: Call): (Memory, Entry) {
    var m1 := SweepIfDue(m, c.now);
    (m1.(hits := Plain(m1.hits, c)), Count(m1.hits, c))
  }

  class InMemoryRateLimitStore {
    var hits: Hits
    var lastSweep: int

    ghost function Value(): Memory
      reads this
    {
      Memory(hits, lastSweep)
    }

    constructor ()
      ensures Value() == Memory(map[], 0)
    {
      hits, lastSweep := map[], 0;
    }

    method Hit(c: Call) returns (r: Entry)
      modifies this
      ensures (Value(), r) == MemoryHit(old(Value()), c)
    {
      Sweep(c.now);
      if c.key !in hits || hits[c.key].resetAt <= c.now {
        r := Entry(1, c.now + c.windowMs);
        hits := hits[c.key := r];
        return;
      }
      r := hits[c.key].(count := hits[c.key].count + 1);
      hits := hits[c.key := r];
    }

    /** Drops the expired counters, at most once a minute. */
    method Sweep(now: int)
      modifies this
      ensures Value() == SweepIfDue(old(Value()), now)
      ensures if now < old(lastSweep) + 60_000 then hits == old(hits) && lastSweep == old(lastSweep)
              else lastSweep == now && forall k, e :: k in hits && hits[k] == e <==>
                     k in old(hits) && old(hits)[k] == e && now < e.resetAt
    {
      if now - lastSweep < SWEEP_INTERVAL_MS { return; }
      lastSweep := now;
      var todo := hits.Keys;
      while todo != {}
        invariant todo <= old(hits).Keys && lastSweep == now
        invariant hits == map k | k in old(hits) && (k in todo || old(hits)[k].resetAt > now) :: old(hits)[k]
        decreases todo
      {
        var key :| key in todo;
        if hits[key].resetAt <= now {
          hits := hits - {key};
        }
        todo := todo - {key};
      }
    }
  }

  // ---------- The Redis store ----------

  /** A key is gone once its time to live has reached 0. */
  predicate Alive(keys: Hits, key: Key, now: int) {
    key in keys && keys[key].resetAt > now
  }

  /** The script: INCR, PEXPIRE on the first hit (a window that is not positive deletes the key), then PTTL. */
  function Script(keys: Hits, c: Call): (Hits, nat, int) {
    if Alive(keys, c.key, c.now) then
      var e := keys[c.key];
      (keys[c.key := e.(count := e.count + 1)], e.count + 1, e.resetAt - c.now)
    else if c.windowMs > 0 then (keys[c.key := Entry(1, c.now + c.windowMs)], 1, c.windowMs)
    else (keys - {c.key}, 1, -2)
  }

  function RedisHit(keys: Hits, c: Call): (Hits, Entry) {
    var (keys', count, ttl) := Script(keys, c);
    (keys', Entry(count, c.now + if ttl > 0 then ttl else c.windowMs))
  }

  class RedisRateLimitStore {
    var keys: Hits

    constructor ()
      ensures keys == map[]
    {
      keys := map[];
    }

    method Hit(c: Call) returns (r: Entry)
      modifies this
      ensures (keys, r) == RedisHit(old(keys), c)
    {
      var (after, count, ttl) := Script(keys, c);
      keys := after;
      var remaining := if ttl > 0 then ttl else c.windowMs;
      r := Entry(count, c.now + remaining);
    }
  }

  // ---------- Runs ----------

  ghost predicate Ordered(calls: seq<Call>) {
    forall i, j :: 0 <= i < j < |calls| ==> calls[i].now <= calls[j].now
  }

  function PlainRun(calls: seq<Call>): (Hits, seq<Entry>) {
    if calls == [] then (map[], [])
    else
      var (hits, out) := PlainRun(calls[..|calls| - 1]);
      (Plain(hits, calls[|calls| - 1]), out + [Count(hits, calls[|calls| - 1])])
  }

  function MemoryRun(calls: seq<Call>): (Memory, seq<Entry>) {
    if calls == [] then (Memory(map[], 0), [])
    else
      var (m, out) := MemoryRun(calls[..|calls| - 1]);
      var (m', r) := MemoryHit(m, calls[|calls| - 1]);
      (m', out + [r])
  }

  function RedisRun(calls: seq<Call>): (Hits, seq<Entry>) {
    if calls == [] then (map[], [])
    else
      var (keys, out) := RedisRun(calls[..|calls| - 1]);
      var (keys', r) := RedisHit(keys, calls[|calls| - 1]);
      (keys', out + [r])
  }

  /** From `now` on the two maps cannot be told apart: they hold the same live entries. */
  ghost predicate SameLive(a: Hits, b: Hits, now: int) {
    forall k :: (Alive(a, k, now) <==> Alive(b, k, now)) && (Alive(a, k, now) ==> a[k] == b[k])
  }

  lemma SameLiveLater(a: Hits, b: Hits, now: int, later: int)
    requires SameLive(a, b, now) && now <= later
    ensures SameLive(a, b, later)
  {
    forall k ensures (Alive(a, k, later) <==> Alive(b, k, later)) && (Alive(a, k, later) ==> a[k] == b[k]) {
      assert Alive(a, k, now) <==> Alive(b, k, now);
    }
  }

  lemma MemoryStep(m: Memory, hits: Hits, c: Call)
    requires SameLive(m.hits, hits, c.now)
    ensures MemoryHit(m, c).1 == Count(hits, c)
    ensures SameLive(MemoryHit(m, c).0.hits, Plain(hits, c), c.now)
  {
    var swept := SweepIfDue(m, c.now).hits;
    forall k ensures (Alive(swept, k, c.now) <==> Alive(hits, k, c.now))
        && (Alive(swept, k, c.now) ==> swept[k] == hits[k]) {
      assert Alive(m.hits, k, c.now) <==> Alive(hits, k, c.now);
    }
  }

  lemma RedisStep(keys: Hits, hits: Hits, c: Call)
    requires SameLive(keys, hits, c.now)
    ensures RedisHit(keys, c).1 == Count(hits, c)
    ensures SameLive(RedisHit(keys, c).0, Plain(hits, c), c.now)
  {
    assert Alive(keys, c.key, c.now) <==> Alive(hits, c.key, c.now);
    var (after, plain) := (RedisHit(keys, c).0, Plain(hits, c));
    forall k ensures (Alive(after, k, c.now) <==> Alive(plain, k, c.now))
        && (Alive(after, k, c.now) ==> after[k] == plain[k]) {
      assert Alive(keys, k, c.now) <==> Alive(hits, k, c.now);
    }
  }

  /** Sweeping never changes an answer, and the Redis script answers as the map does:
      over any time-ordered calls, with any keys and windows, all three give the same results. */
  lemma {:induction false} StoresAgree(calls: seq<Call>)
    requires Ordered(calls)
    ensures MemoryRun(calls).1 == PlainRun(calls).1 == RedisRun(calls).1
    ensures calls != [] ==> SameLive(MemoryRun(calls).0.hits, PlainRun(calls).0, calls[|calls| - 1].now)
    ensures calls != [] ==> SameLive(RedisRun(calls).0, PlainRun(calls).0, calls[|calls| - 1].now)
    decreases |calls|
  {
    if calls != [] {
      var init, c := calls[..|calls| - 1], calls[|calls| - 1];
      StoresAgree(init);
      if init != [] {
        SameLiveLater(MemoryRun(init).0.hits, PlainRun(init).0, init[|init| - 1].now, c.now);
        SameLiveLater(RedisRun(init).0, PlainRun(init).0, init[|init| - 1].now, c.now);
      }
      MemoryStep(MemoryRun(init).0, PlainRun(init).0, c);
      RedisStep(RedisRun(init).0, PlainRun(init).0, c);
    }
  }

  lemma {:induction false} PlainRunLength(calls: seq<Call>)
    ensures |PlainRun(calls).1| == |calls|
    decreases |calls|
  {
    if calls != [] { PlainRunLength(calls[..|calls| - 1]); }
  }

  // ---------- What the count means ----------

  /** The calls of a key from position `from` on. */
  function CallsFrom(calls: seq<Call>, key: Key, from: nat): nat
    decreases |calls|
  {
    if |calls| <= from then 0
    else CallsFrom(calls[..|calls| - 1], key, from) + if calls[|calls| - 1].key == key then 1 else 0
  }

  /** Call `o` opened the key's current window, at a moment when every earlier one was over; the entry counts the
      key's calls since then, and all of them were told the same reset time. */
  ghost predicate Window(calls: seq<Call>, results: seq<Entry>, key: Key, o: nat, e: Entry) {
    && o < |calls| == |results| && calls[o].key == key
    && e == Entry(CallsFrom(calls, key, o), calls[o].now + calls[o].windowMs)
    && (forall p :: 0 <= p < |calls| && calls[p].key == key ==> Told(calls, results, p, o, e))
  }

  predicate Told(calls: seq<Call>, results: seq<Entry>, p: nat, o: nat, e: Entry)
    requires p < |calls| == |results| && o < |calls|
  {
    if p < o then results[p].resetAt <= calls[o].now else results[p].resetAt == e.resetAt
  }

  ghost predicate InWindow(calls: seq<Call>, results: seq<Entry>, key: Key, e: Entry) {
    exists o: nat :: Window(calls, results, key, o, e)
  }

  /** A call of another key leaves the window as it is. */
  lemma WindowStays(calls: seq<Call>, results: seq<Entry>, c: Call, r: Entry, key: Key, e: Entry)
    requires InWindow(calls, results, key, e) && c.key != key
    ensures InWindow(calls + [c], results + [r], key, e)
  {
    var o: nat :| Window(calls, results, key, o, e);
    var calls', results' := calls + [c], results + [r];
    assert calls'[..|calls|] == calls;
    forall p | 0 <= p < |calls'| && calls'[p].key == key ensures Told(calls', results', p, o, e) {
      assert Told(calls, results, p, o, e);
    }
    assert Window(calls', results', key, o, e);
  }

  /** A call while the window is open is counted in it. */
  lemma WindowCounts(calls: seq<Call>, results: seq<Entry>, c: Call, e: Entry)
    requires InWindow(calls, results, c.key, e)
    ensures InWindow(calls + [c], results + [e.(count := e.count + 1)], c.key, e.(count := e.count + 1))
  {
    var o: nat :| Window(calls, results, c.key, o, e);
    var r := e.(count := e.count + 1);
    var calls', results' := calls + [c], results + [r];
    assert calls'[..|calls|] == calls;
    forall p | 0 <= p < |calls'| && calls'[p].key == c.key ensures Told(calls', results', p, o, r) {
      if p < |calls| { assert Told(calls, results, p, o, e); }
    }
    assert Window(calls', results', c.key, o, r);
  }

  /** A call that finds no open window opens one. */
  lemma WindowOpens(calls: seq<Call>, results: seq<Entry>, c: Call)
    requires |calls| == |results|
    requires forall p :: 0 <= p < |calls| && calls[p].key == c.key ==> results[p].resetAt <= c.now
    ensures InWindow(calls + [c], results + [Entry(1, c.now + c.windowMs)], c.key, Entry(1, c.now + c.windowMs))
  {
    var r := Entry(1, c.now + c.windowMs);
    var calls', results' := calls + [c], results + [r];
    assert calls'[..|calls|] == calls && CallsFrom(calls, c.key, |calls|) == 0;
    assert Window(calls', results', c.key, |calls|, r);
  }

  lemma AllOver(calls: seq<Call>, results: seq<Entry>, c: Call, e: Entry)
    requires InWindow(calls, results, c.key, e) && e.resetAt <= c.now && Ordered(calls + [c])
    ensures forall p :: 0 <= p < |calls| && calls[p].key == c.key ==> results[p].resetAt <= c.now
  {
    var o: nat :| Window(calls, results, c.key, o, e);
    var all := calls + [c];
    assert all[o].now <= all[|calls|].now;
    forall p | 0 <= p < |calls| && calls[p].key == c.key ensures results[p].resetAt <= c.now {
      assert Told(calls, results, p, o, e);
    }
  }

  /** The key has an entry when it was called, and that entry is its window's. */
  ghost predicate WindowKnown(hits: Hits, calls: seq<Call>, results: seq<Entry>, key: Key) {
    && (key in hits <==> exists p :: 0 <= p < |calls| && calls[p].key == key)
    && (key in hits ==> InWindow(calls, results, key, hits[key]))
  }

  lemma WindowStep(hits: Hits, calls: seq<Call>, results: seq<Entry>, c: Call)
    requires |calls| == |results| && Ordered(calls + [c]) && WindowKnown(hits, calls, results, c.key)
    ensures InWindow(calls + [c], results + [Count(hits, c)], c.key, Count(hits, c))
  {
    if c.key !in hits {
      WindowOpens(calls, results, c);
    } else if hits[c.key].resetAt <= c.now {
      AllOver(calls, results, c, hits[c.key]);
      WindowOpens(calls, results, c);
    } else {
      WindowCounts(calls, results, c, hits[c.key]);
    }
  }

  lemma {:induction false} WindowsKnown(calls: seq<Call>, key: Key)
    requires Ordered(calls)
    ensures WindowKnown(PlainRun(calls).0, calls, PlainRun(calls).1, key)
    decreases |calls|
  {
    if calls != [] {
      var init, c := calls[..|calls| - 1], calls[|calls| - 1];
      var (hits, results) := PlainRun(init);
      assert calls == init + [c];
      PlainRunLength(init);
      WindowsKnown(init, key);
      if c.key == key {
        WindowStep(hits, init, results, c);
      } else {
        assert forall p :: 0 <= p < |calls| && calls[p].key == key ==> p < |init| && init[p].key == key;
        assert forall p :: 0 <= p < |init| && init[p].key == key ==> calls[p].key == key;
        if key in hits { WindowStays(init, results, c, Count(hits, c), key, hits[key]); }
      }
    }
  }

  /** The last call is in the window that call `o` opened, and either opened it itself or found it still open. */
  ghost predicate LastCounted(calls: seq<Call>, results: seq<Entry>, o: nat) {
    && 0 < |calls| == |results|
    && Window(calls, results, calls[|calls| - 1].key, o, results[|results| - 1])
    && (o == |calls| - 1 || calls[|calls| - 1].now < results[|results| - 1].resetAt)
  }

  lemma PlainCounts(calls: seq<Call>, c: Call)
    requires Ordered(calls) && Ordered(calls + [c])
    ensures exists o: nat :: LastCounted(calls + [c], PlainRun(calls).1 + [Count(PlainRun(calls).0, c)], o)
  {
    var (hits, results) := PlainRun(calls);
    PlainRunLength(calls);
    WindowsKnown(calls, c.key);
    WindowStep(hits, calls, results, c);
    var r := Count(hits, c);
    var o: nat :| Window(calls + [c], results + [r], c.key, o, r);
    if o < |calls| {
      StillOpen(hits, calls, results, c, o);
    }
    assert LastCounted(calls + [c], results + [r], o);
  }

  /** The count a call gets is the number of its key's calls since the window opened, itself included; the window
      opened at a call that found every earlier one over, and is still open unless this call opened it. */
  lemma CountsCallsInWindow(calls: seq<Call>)
    requires Ordered(calls) && calls != []
    ensures exists o: nat :: LastCounted(calls, MemoryRun(calls).1, o)
  {
    var init, c := calls[..|calls| - 1], calls[|calls| - 1];
    assert calls == init + [c];
    StoresAgree(calls);
    PlainCounts(init, c);
  }

  lemma StillOpen(hits: Hits, calls: seq<Call>, results: seq<Entry>, c: Call, o: nat)
    requires |calls| == |results| && Ordered(calls + [c]) && WindowKnown(hits, calls, results, c.key)
    requires o < |calls| && Window(calls + [c], results + [Count(hits, c)], c.key, o, Count(hits, c))
    ensures c.now < Count(hits, c).resetAt
  {
    assert (calls + [c])[o].key == c.key;
    assert c.key in hits;
    if hits[c.key].resetAt <= c.now {
      assert (calls + [c])[..|calls|] == calls;
      CallsAtLeast(calls, c.key, o);
    }
  }

  lemma {:induction false} CallsAtLeast(calls: seq<Call>, key: Key, o: nat)
    requires o < |calls| && calls[o].key == key
    ensures CallsFrom(calls, key, o) >= 1
    decreases |calls|
  {
    if o < |calls| - 1 { CallsAtLeast(calls[..|calls| - 1], key, o); }
  }

  // ---------- The bound ----------

  /** The calls of a key made in [from, from + length) that a rule with this limit lets through. */
  function Admitted(calls: seq<Call>, results: seq<Entry>, key: Key, limit: int, from: int, length: int): nat
    requires |results| == |calls|
    decreases |calls|
  {
    if calls == [] then 0
    else
      var n := |calls| - 1;
      Admitted(calls[..n], results[..n], key, limit, from, length) +
      if calls[n].key == key && from <= calls[n].now < from + length && results[n].count <= limit then 1 else 0
  }

  function Min(a: int, b: int): int {
    if a <= b then a else b
  }

  /** While the interval is open, the admitted calls of the key either all belong to its current window,
      or that window outlasts the interval and at most a limit's worth came before it. */
  ghost predicate Budget(hits: Hits, key: Key, n: nat, limit: nat, from: int, length: int) {
    || n == 0
    || (key in hits && n <= Min(hits[key].count, limit) && hits[key].resetAt > from)
    || (key in hits && n <= limit + Min(hits[key].count, limit) && hits[key].resetAt > from + length)
  }

  lemma BudgetStep(hits: Hits, c: Call, key: Key, n: nat, limit: nat, from: int, length: int)
    requires length > 0 && (c.key == key ==> c.windowMs == length)
    requires Budget(hits, key, n, limit, from, length) && c.now < from + length
    ensures
      var n' := n + if c.key == key && from <= c.now && Count(hits, c).count <= limit then 1 else 0;
      Budget(Plain(hits, c), key, n', limit, from, length)
  {
  }

  lemma {:induction false} AdmittedWithin(calls: seq<Call>, key: Key, limit: nat, from: int, length: int)
    requires Ordered(calls) && length > 0
    requires forall i :: 0 <= i < |calls| && calls[i].key == key ==> calls[i].windowMs == length
    ensures |PlainRun(calls).1| == |calls|
    ensures
      var n := Admitted(calls, PlainRun(calls).1, key, limit, from, length);
      n <= 2 * limit && ((forall i :: 0 <= i < |calls| ==> calls[i].now < from + length)
          ==> Budget(PlainRun(calls).0, key, n, limit, from, length))
    decreases |calls|
  {
    PlainRunLength(calls);
    if calls != [] {
      var init, c := calls[..|calls| - 1], calls[|calls| - 1];
      AdmittedWithin(init, key, limit, from, length);
      assert PlainRun(calls).1[..|calls| - 1] == PlainRun(init).1;
      if c.now < from + length {
        assert forall i :: 0 <= i < |init| ==> init[i].now <= c.now by {
          forall i | 0 <= i < |init| ensures init[i].now <= c.now { assert init[i] == calls[i]; }
        }
        BudgetStep(PlainRun(init).0, c, key, Admitted(init, PlainRun(init).1, key, limit, from, length), limit, from,
            length);
      }
    }
  }

  /**
   With one window length per key, whichever store counts, no half-open interval one window long lets
   more than twice the limit of a key's requests through.
   */
  lemma AtMostTwiceTheLimit(calls: seq<Call>, key: Key, limit: nat, from: int, length: int)
    requires Ordered(calls) && length > 0
    requires forall i :: 0 <= i < |calls| && calls[i].key == key ==> calls[i].windowMs == length
    ensures |MemoryRun(calls).1| == |RedisRun(calls).1| == |calls|
    ensures Admitted(calls, MemoryRun(calls).1, key, limit, from, length) <= 2 * limit
    ensures Admitted(calls, RedisRun(calls).1, key, limit, from, length) <= 2 * limit
  {
    StoresAgree(calls);
    AdmittedWithin(calls, key, limit, from, length);
  }

  // ---------- The guard ----------

  datatype Rule = Rule(limit: int, windowMs: int)

  datatype Verdict = Pass | TooManyRequests(retryAfter: int)

  function CeilDiv1000(x: int): int {
    -((-x) / 1000)
  }

  function Judge(hit: Entry, limit: int, now: int): Verdict {
    if hit.count > limit then
      var seconds := CeilDiv1000(hit.resetAt - now);
      TooManyRequests(if seconds > 1 then seconds else 1)
    else Pass
  }

  /** Retry-After is the least whole number of seconds, but at least one, after which the window has been reset. */
  lemma RetryAfterIsLeast(hit: Entry, limit: int, now: int)
    ensures Judge(hit, limit, now).Pass? <==> hit.count <= limit
    ensures Judge(hit, limit, now).TooManyRequests? ==>
              var s := Judge(hit, limit, now).retryAfter;
              s >= 1 && now + 1000 * s >= hit.resetAt && (s == 1 || now + 1000 * (s - 1) < hit.resetAt)
  {
  }

  /** What a configured store does with a hit: it answers, or it throws. */
  datatype Reply = Answer(hit: Entry) | Threw

  class RateLimitGuard {
    const configured: bool
    var fallback: InMemoryRateLimitStore?
    var warnedDegraded: bool

    constructor (configured: bool)
      ensures this.configured == configured && fallback == null && !warnedDegraded
    {
      this.configured := configured;
      fallback, warnedDegraded := null, false;
    }

    /** `reply` is what the configured store does, if there is one; `later` is the clock when the count is judged. */
    method CanActivate(rule: Option<Rule>, key: Key, now: int, later: int, reply: Reply) returns (verdict: Verdict)
      modifies this, if fallback == null then {} else {fallback}
      ensures rule.None? ==> verdict == Pass && fallback == old(fallback) && warnedDegraded == old(warnedDegraded)
      ensures rule.Some? && configured ==>
                && verdict == (if reply.Threw? then Pass else Judge(reply.hit, rule.value.limit, later))
                && warnedDegraded == (old(warnedDegraded) || reply.Threw?)
      ensures configured ==> fallback == old(fallback) && (fallback != null ==> unchanged(fallback))
      ensures rule.Some? && !configured ==>
                && fallback != null && (old(fallback) != null ==> fallback == old(fallback))
                && var m := if old(fallback) == null then Memory(map[], 0) else old(fallback.Value());
                   var (m', hit) := MemoryHit(m, Call(now, key, rule.value.windowMs));
                   fallback.Value() == m' && verdict == Judge(hit, rule.value.limit, later)
    {
      if rule.None? { return Pass; }
      var hit;
      if configured {
        if reply.Threw? {
          if !warnedDegraded {
            warnedDegraded := true;
          }
          return Pass;
        }
        hit := reply.hit;
      } else {
        if fallback == null {
          fallback := new InMemoryRateLimitStore();
        }
        hit := fallback.Hit(Call(now, key, rule.value.windowMs));
      }
      if hit.count > rule.value.limit {
        var seconds := CeilDiv1000(hit.resetAt - later);
        return TooManyRequests(if 1 < seconds then seconds else 1);
      }
      return Pass;
    }
  }
}
