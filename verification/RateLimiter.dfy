/** The in-memory sliding-window limiter: pruned queues of admission times in a bounded least-recently-used map. */
module RateLimiter {
  import Sorting

  const MAX_LIMITER_KEYS: nat := 10_000

  /** `order` lists the keys from least to most recently used; `hits` holds each key's remembered admissions. */
  datatype State = State(order: seq<string>, hits: map<string, seq<real>>)

  datatype Call = Call(key: string, limit: int, window: int, now: real)
  datatype Answer = Admitted | Denied(retryAfter: int)

  function AtLeastOne(n: int): nat
  {
    if n < 1 then 1 else n
  }

  /** `max(1, min(max_keys, 10000))`. */
  function Capacity(maxKeys: int): (n: nat)
    ensures 1 <= n <= MAX_LIMITER_KEYS
  {
    if maxKeys < 1 then 1 else if maxKeys > MAX_LIMITER_KEYS then MAX_LIMITER_KEYS else maxKeys
  }

  /** Drop from the front everything at or before the cutoff. */
  function Prune(hits: seq<real>, cutoff: real): seq<real>
  {
    if hits != [] && hits[0] <= cutoff then Prune(hits[1..], cutoff) else hits
  }

  function Without(order: seq<string>, key: string): seq<string>
  {
    if order == [] then [] else if order[0] == key then order[1..] else [order[0]] + Without(order[1..], key)
  }

  function HitsOf(s: State, key: string): seq<real>
  {
    if key in s.hits then s.hits[key] else []
  }

  /** Whole seconds until the oldest remembered hit leaves the window, rounded up and at least one. */
  function RetryAfter(oldest: real, window: int, now: real): int
  {
    var wait := oldest + window as real - now;
    var whole := if wait >= 0.0 then wait.Floor else -((-wait).Floor);
    if whole + 1 < 1 then 1 else whole + 1
  }

  /** Forget least recently used keys until at most `n` are left. */
  function Evict(s: State, n: nat): State
    decreases |s.order|
  {
    if |s.order| <= n then s else Evict(State(s.order[1..], s.hits - {s.order[0]}), n)
  }

  function Held(s: State, c: Call): seq<real>
  {
    Prune(HitsOf(s, c.key), c.now - AtLeastOne(c.window) as real)
  }

  function Use(s: State, key: string, hits: seq<real>): State
  {
    State(Without(s.order, key) + [key], s.hits[key := hits])
  }

  function Acquire(s: State, c: Call, capacity: nat): (State, Answer)
  {
    var held := Held(s, c);
    if |held| >= AtLeastOne(c.limit) then
      (Use(s, c.key, held), Denied(RetryAfter(held[0], AtLeastOne(c.window), c.now)))
    else (Evict(Use(s, c.key, held + [c.now]), capacity), Admitted)
  }

  const EMPTY := State([], map[])

  function After(calls: seq<Call>, capacity: nat): State
  {
    if calls == [] then EMPTY else Acquire(After(calls[..|calls| - 1], capacity), calls[|calls| - 1], capacity).0
  }

  /** The answer to call `i` of the sequence. */
  function AnswerTo(calls: seq<Call>, i: nat, capacity: nat): Answer
    requires i < |calls|
  {
    Acquire(After(calls[..i], capacity), calls[i], capacity).1
  }

  // ---------- The limiter as it runs ----------

  ghost predicate Valid(s: State)
  {
    && (forall i, j :: 0 <= i < j < |s.order| ==> s.order[i] != s.order[j])
    && (forall k :: k in s.order <==> k in s.hits)
  }

  /** The hits of a key later than the window's start, oldest first: what is left once the front has been dropped. */
  predicate WithinWindow(held: seq<real>, hits: seq<real>, start: real)
  {
    && |held| <= |hits| && held == hits[|hits| - |held|..]
    && (forall i :: 0 <= i < |hits| - |held| ==> hits[i] <= start)
    && (held != [] ==> held[0] > start)
  }

  /** The keys in order of use, the last one last: those of `s`, with `key` moved or added at the end. */
  ghost predicate Reordered(order: seq<string>, used: seq<string>, key: string)
  {
    && used != [] && used[|used| - 1] == key && key !in used[..|used| - 1]
    && if key in order then KeyTakenOut(order, used[..|used| - 1], key) else used[..|used| - 1] == order
  }

  ghost predicate KeyTakenOut(order: seq<string>, rest: seq<string>, key: string)
  {
    exists i :: 0 <= i < |order| && order[i] == key && rest == order[..i] + order[i + 1..]
  }

  /** What one call does: it is refused when the window already holds its limit, and told the next whole second after the
      oldest hit leaves the window; otherwise its hit is remembered. Its key is the last used now; of the keys before it, the
      least recently used are forgotten, with their hits, as far as there are too many. */
  ghost predicate Acquired(s: State, s': State, c: Call, capacity: nat, answer: Answer)
  {
    exists held, used :: AcquiredWith(s, s', c, capacity, answer, held, used)
  }

  ghost predicate AcquiredWith(s: State, s': State, c: Call, capacity: nat, answer: Answer, held: seq<real>, used: seq<string>)
  {
    var hits := if c.key in s.hits then s.hits[c.key] else [];
    var window := if c.window < 1 then 1 else c.window;
    var limit := if c.limit < 1 then 1 else c.limit;
    && WithinWindow(held, hits, c.now - window as real) && Reordered(s.order, used, c.key)
    && (answer == Admitted <==> |held| < limit)
    && if |held| >= limit then
         && s'.order == used && s'.hits == s.hits[c.key := held]
         && answer.Denied? && NextSecond(held[0] + window as real - c.now, answer.retryAfter)
       else Remembered(s, s', c.key, capacity, held + [c.now], used)
  }

  /** The newest of `used` are left, as many as fit; `key` holds `hits` now and the others what they held. */
  ghost predicate Remembered(s: State, s': State, key: string, capacity: nat, hits: seq<real>, used: seq<string>)
  {
    && |s'.order| == (if |used| < capacity then |used| else capacity) && s'.order == used[|used| - |s'.order|..]
    && (forall k :: k in s'.hits <==> k in s'.order)
    && (forall k :: k in s'.hits ==> if k == key then s'.hits[k] == hits else k in s.hits && s'.hits[k] == s.hits[k])
  }

  /** `n` is the whole second after a wait of `wait` seconds, and never less than one. */
  predicate NextSecond(wait: real, n: int)
  {
    if wait < 0.0 then n == 1 else (n - 1) as real <= wait < n as real
  }

  class InMemoryRateLimiter {
    var order: seq<string>
    var hits: map<string, seq<real>>
    const capacity: nat

    function Value(): State
      reads this
    {
      State(order, hits)
    }

    constructor (maxKeys: int)
      ensures Value() == EMPTY && capacity == Capacity(maxKeys)
    {
      order, hits, capacity := [], map[], Capacity(maxKeys);
    }

    method Pop(key: string) returns (held: seq<real>)
      modifies this
      ensures held == HitsOf(old(Value()), key)
      ensures order == Without(old(order), key) && hits == old(hits) - {key}
    {
      held := HitsOf(Value(), key);
      order := Without(order, key);
      hits := hits - {key};
    }

    method EvictOldest()
      modifies this
      ensures Value() == Evict(old(Value()), capacity)
    {
      while |order| > capacity
        invariant Evict(Value(), capacity) == Evict(old(Value()), capacity)
        decreases |order|
      {
        order, hits := order[1..], hits - {order[0]};
      }
    }

    /** Reinsertion at the most recently used end. */
    method Put(key: string, held: seq<real>)
      modifies this
      ensures order == old(order) + [key] && hits == old(hits)[key := held]
    {
      order, hits := order + [key], hits[key := held];
    }

    /** `acquire`, under the lock. */
    method AcquireSlot(key: string, limit: int, window: int, now: real) returns (answer: Answer)
      modifies this
      ensures (Value(), answer) == Acquire(old(Value()), Call(key, limit, window, now), capacity)
      ensures Valid(old(Value())) && |old(order)| <= capacity && capacity >= 1 ==>
        Acquired(old(Value()), Value(), Call(key, limit, window, now), capacity, answer)
    {
      ghost var s := Value();
      answer := AcquireHeld(key, limit, window, now);
      if Valid(s) && |s.order| <= capacity && capacity >= 1 { AcquireHasEffect(s, Call(key, limit, window, now), capacity); }
    }

    method AcquireHeld(key: string, limit: int, window: int, now: real) returns (answer: Answer)
      modifies this
      ensures (Value(), answer) == Acquire(old(Value()), Call(key, limit, window, now), capacity)
    {
      var span := AtLeastOne(window);
      var held := Pop(key);
      held := PruneFront(held, now - span as real);
      assert held == Held(old(Value()), Call(key, limit, window, now));
      if |held| >= AtLeastOne(limit) {
        Put(key, held);
        assert Value() == Use(old(Value()), key, held);
        return Denied(RetryAfter(held[0], span, now));
      }
      Put(key, held + [now]);
      assert Value() == Use(old(Value()), key, held + [now]);
      EvictOldest();
      return Admitted;
    }
  }

  method PruneFront(hits: seq<real>, cutoff: real) returns (held: seq<real>)
    ensures held == Prune(hits, cutoff)
  {
    held := hits;
    while held != [] && held[0] <= cutoff
      invariant Prune(held, cutoff) == Prune(hits, cutoff)
      decreases |held|
    {
      held := held[1..];
    }
  }

  // ---------- The map ----------

  lemma {:induction false} WithoutMembers(order: seq<string>, key: string)
    requires forall i, j :: 0 <= i < j < |order| ==> order[i] != order[j]
    ensures forall k :: k in Without(order, key) <==> k in order && k != key
    ensures forall i, j :: 0 <= i < j < |Without(order, key)| ==> Without(order, key)[i] != Without(order, key)[j]
    ensures |Without(order, key)| == |order| - if key in order then 1 else 0
  {
    if order != [] {
      if order[0] == key {
        forall k
          ensures k in order[1..] <==> k in order && k != key
        {
        }
      } else {
        WithoutMembers(order[1..], key);
        var rest := Without(order[1..], key);
        forall j | 0 <= j < |rest|
          ensures rest[j] != order[0]
        {
          assert rest[j] in rest;
        }
        assert key in order <==> key in order[1..];
      }
    }
  }

  lemma UseValid(s: State, key: string, held: seq<real>)
    requires Valid(s)
    ensures Valid(Use(s, key, held))
    ensures |Use(s, key, held).order| == |s.order| + if key in s.hits then 0 else 1
  {
    WithoutMembers(s.order, key);
  }

  lemma {:induction false} EvictValid(s: State, n: nat)
    requires Valid(s)
    ensures Valid(Evict(s, n)) && |Evict(s, n).order| <= n
    ensures |s.order| <= n ==> Evict(s, n) == s
    decreases |s.order|
  {
    if |s.order| > n {
      var next := State(s.order[1..], s.hits - {s.order[0]});
      forall k
        ensures k in next.order <==> k in next.hits
      {
        assert k in s.order <==> k == s.order[0] || k in s.order[1..];
      }
      EvictValid(next, n);
    }
  }

  lemma AcquireValid(s: State, c: Call, capacity: nat)
    requires Valid(s) && 1 <= capacity && |s.order| <= capacity
    ensures Valid(Acquire(s, c, capacity).0) && |Acquire(s, c, capacity).0.order| <= capacity
  {
    var held := Held(s, c);
    UseValid(s, c.key, held);
    UseValid(s, c.key, held + [c.now]);
    EvictValid(Use(s, c.key, held + [c.now]), capacity);
  }

  /** The key map never holds more than its capacity. */
  lemma {:induction false} KeysBounded(calls: seq<Call>, capacity: nat)
    requires 1 <= capacity
    ensures Valid(After(calls, capacity)) && |After(calls, capacity).hits.Keys| <= capacity
    ensures |After(calls, capacity).order| <= capacity
  {
    if calls != [] {
      KeysBounded(calls[..|calls| - 1], capacity);
      AcquireValid(After(calls[..|calls| - 1], capacity), calls[|calls| - 1], capacity);
    }
    CountKeys(After(calls, capacity));
  }

  lemma CountKeys(s: State)
    requires Valid(s)
    ensures |s.hits.Keys| == |s.order|
  {
    var members := set k | k in s.order;
    assert members == s.hits.Keys;
    Sorting.DistinctSize(s.order);
  }

  lemma {:induction false} WithoutAt(order: seq<string>, key: string) returns (i: nat)
    requires key in order
    ensures i < |order| && order[i] == key && Without(order, key) == order[..i] + order[i + 1..]
  {
    if order[0] == key {
      i := 0;
    } else {
      var rest := order[1..];
      var j := WithoutAt(rest, key);
      i := j + 1;
      assert order[..i] == [order[0]] + rest[..j] && order[i + 1..] == rest[j + 1..];
    }
  }

  lemma {:induction false} WithoutNothing(order: seq<string>, key: string)
    requires key !in order
    ensures Without(order, key) == order
  {
    if order != [] {
      assert key !in order[1..];
      WithoutNothing(order[1..], key);
    }
  }

  lemma UseReorders(s: State, key: string)
    requires Valid(s)
    ensures Reordered(s.order, Without(s.order, key) + [key], key)
  {
    var used := Without(s.order, key) + [key];
    assert used[..|used| - 1] == Without(s.order, key);
    WithoutMembers(s.order, key);
    if key in s.order {
      var i := WithoutAt(s.order, key);
      assert KeyTakenOut(s.order, Without(s.order, key), key);
    } else {
      WithoutNothing(s.order, key);
    }
  }

  /** Evicting keeps the most recently used keys, and what they hold. */
  lemma {:induction false} EvictKeepsNewest(s: State, n: nat)
    requires Valid(s)
    ensures var s' := Evict(s, n);
      && |s'.order| == (if |s.order| < n then |s.order| else n) && s'.order == s.order[|s.order| - |s'.order|..]
      && (forall k :: k in s'.hits <==> k in s'.order) && forall k :: k in s'.hits ==> k in s.hits && s'.hits[k] == s.hits[k]
    decreases |s.order|
  {
    EvictValid(s, n);
    if |s.order| > n {
      var next := State(s.order[1..], s.hits - {s.order[0]});
      forall k
        ensures k in next.order <==> k in next.hits
      {
        assert k in s.order <==> k == s.order[0] || k in s.order[1..];
      }
      EvictKeepsNewest(next, n);
    }
  }

  lemma RetryIsNextSecond(oldest: real, window: int, now: real)
    ensures NextSecond(oldest + window as real - now, RetryAfter(oldest, window, now))
  {
  }

  lemma PruneIsWindow(hits: seq<real>, start: real)
    ensures WithinWindow(Prune(hits, start), hits, start)
  {
    PruneIsTail(hits, start);
    PruneRemembers(hits, hits, start, start);
  }

  lemma UseThenEvict(s: State, key: string, capacity: nat, hits: seq<real>)
    requires Valid(s)
    ensures Remembered(s, Evict(Use(s, key, hits), capacity), key, capacity, hits, Without(s.order, key) + [key])
  {
    UseValid(s, key, hits);
    EvictKeepsNewest(Use(s, key, hits), capacity);
  }

  lemma HeldIsWindow(s: State, c: Call, hits: seq<real>)
    requires hits == HitsOf(s, c.key)
    ensures WithinWindow(Held(s, c), hits, c.now - AtLeastOne(c.window) as real)
  {
    PruneIsWindow(hits, c.now - AtLeastOne(c.window) as real);
  }

  lemma EffectByCases(s: State, s': State, c: Call, capacity: nat, answer: Answer, held: seq<real>, used: seq<string>)
    requires WithinWindow(held, HitsOf(s, c.key), c.now - AtLeastOne(c.window) as real) && Reordered(s.order, used, c.key)
    requires answer == Admitted <==> |held| < AtLeastOne(c.limit)
    requires answer == Admitted ==> Remembered(s, s', c.key, capacity, held + [c.now], used)
    requires answer.Denied? ==> s' == State(used, s.hits[c.key := held]) && answer == Denied(RetryAfter(held[0], AtLeastOne(c.window), c.now))
    ensures AcquiredWith(s, s', c, capacity, answer, held, used)
  {
    if answer.Denied? { RetryIsNextSecond(held[0], AtLeastOne(c.window), c.now); }
  }

  lemma AcquireHasEffect(s: State, c: Call, capacity: nat)
    requires Valid(s) && |s.order| <= capacity && capacity >= 1
    ensures Acquired(s, Acquire(s, c, capacity).0, c, capacity, Acquire(s, c, capacity).1)
  {
    var (s', answer) := Acquire(s, c, capacity);
    var (held, used) := (Held(s, c), Without(s.order, c.key) + [c.key]);
    HeldIsWindow(s, c, HitsOf(s, c.key));
    UseReorders(s, c.key);
    AdmitsIff(s, c, capacity);
    if answer == Admitted { UseThenEvict(s, c.key, capacity, held + [c.now]); }
    EffectByCases(s, s', c, capacity, answer, held, used);
  }

  // ---------- Which keys are forgotten ----------

  predicate Used(calls: seq<Call>, key: string)
  {
    exists i :: 0 <= i < |calls| && calls[i].key == key
  }

  /** The other keys used since the last use of `key`. */
  function OthersSince(calls: seq<Call>, key: string): set<string>
  {
    set i | 0 <= i < |calls| && NotFrom(calls, i, key) :: calls[i].key
  }

  /** `key` is not used from call `i` on. */
  predicate NotFrom(calls: seq<Call>, i: int, key: string)
  {
    forall m :: 0 <= i <= m < |calls| ==> calls[m].key != key
  }

  /** All keys ever used, the last used last. */
  function Recency(calls: seq<Call>): seq<string>
  {
    if calls == [] then [] else Without(Recency(calls[..|calls| - 1]), calls[|calls| - 1].key) + [calls[|calls| - 1].key]
  }

  predicate NoRepeats(order: seq<string>)
  {
    forall i, j :: 0 <= i < j < |order| ==> order[i] != order[j]
  }

  function Newest(order: seq<string>, n: nat): seq<string>
  {
    if |order| <= n then order else order[|order| - n..]
  }

  function Members(order: seq<string>): set<string>
  {
    set k | k in order
  }

  lemma OthersNext(front: seq<Call>, c: Call, key: string)
    ensures OthersSince(front + [c], key) == if c.key == key then {} else OthersSince(front, key) + {c.key}
    ensures Used(front + [c], key) <==> Used(front, key) || c.key == key
  {
    var calls := front + [c];
    assert calls[|front|] == c;
    if Used(front, key) {
      var i :| 0 <= i < |front| && front[i].key == key;
      assert calls[i].key == key;
    }
    forall i | 0 <= i < |front|
      ensures NotFrom(calls, i, key) <==> NotFrom(front, i, key) && c.key != key
      ensures calls[i] == front[i]
    {
      if NotFrom(calls, i, key) { assert forall m :: i <= m < |front| ==> calls[m] == front[m]; }
      if NotFrom(front, i, key) && c.key != key { assert forall m :: i <= m < |front| ==> front[m].key != key; }
    }
    assert NotFrom(calls, |front|, key) <==> c.key != key;
  }

  /** What comes after the first occurrence of `key`. */
  function Behind(order: seq<string>, key: string): seq<string>
  {
    if order == [] then [] else if order[0] == key then order[1..] else Behind(order[1..], key)
  }

  lemma {:induction false} BehindAppend(order: seq<string>, k: string, key: string)
    requires key in order
    ensures Behind(order + [k], key) == Behind(order, key) + [k]
  {
    assert (order + [k])[1..] == order[1..] + [k];
    if order[0] != key { BehindAppend(order[1..], k, key); }
  }

  /** Moving a key to the end puts it behind every other key, and changes nothing else about what is behind them. */
  lemma {:induction false} BehindMoved(order: seq<string>, k: string, key: string)
    requires NoRepeats(order) && key in order && key != k
    ensures Members(Behind(Without(order, k) + [k], key)) == Members(Behind(order, key)) + {k}
  {
    var rest := order[1..];
    if order[0] == k {
      BehindAppend(rest, k, key);
    } else if order[0] == key {
      WithoutMembers(rest, k);
      assert ([key] + Without(rest, k) + [k])[1..] == Without(rest, k) + [k];
    } else {
      BehindMoved(rest, k, key);
      assert ([order[0]] + Without(rest, k) + [k])[1..] == Without(rest, k) + [k];
    }
  }

  lemma {:induction false} BehindLast(order: seq<string>, key: string)
    requires key !in order
    ensures Behind(order + [key], key) == []
  {
    if order != [] {
      assert (order + [key])[1..] == order[1..] + [key];
      BehindLast(order[1..], key);
    }
  }

  lemma MovedNoRepeats(order: seq<string>, k: string)
    requires NoRepeats(order)
    ensures NoRepeats(Without(order, k) + [k]) && forall x :: x in Without(order, k) + [k] <==> x in order || x == k
    ensures k !in Without(order, k)
  {
    WithoutMembers(order, k);
  }

  /** What is behind a key in the order of use is what was used since its own last use. */
  lemma {:induction false} RecencyTells(calls: seq<Call>, key: string)
    ensures NoRepeats(Recency(calls)) && (key in Recency(calls) <==> Used(calls, key))
    ensures Used(calls, key) ==> OthersSince(calls, key) == Members(Behind(Recency(calls), key))
  {
    if calls != [] {
      var (front, c) := (calls[..|calls| - 1], calls[|calls| - 1]);
      RecencyTells(front, key);
      assert calls == front + [c];
      OthersNext(front, c, key);
      MovedNoRepeats(Recency(front), c.key);
      if key == c.key {
        BehindLast(Without(Recency(front), key), key);
      } else if Used(front, key) {
        BehindMoved(Recency(front), c.key, key);
      }
    }
  }

  lemma {:induction false} BehindCounts(order: seq<string>, key: string, n: nat)
    requires NoRepeats(order) && key in order
    ensures |Behind(order, key)| == |Members(Behind(order, key))|
    ensures key in Newest(order, n) <==> |Behind(order, key)| < n
  {
    if order[0] == key {
      assert NoRepeats(order[1..]);
      Sorting.DistinctSize(order[1..]);
    } else {
      BehindCounts(order[1..], key, n);
      assert |order| > n ==> Newest(order, n) == Newest(order[1..], n);
      BehindShorter(order[1..], key);
    }
  }

  lemma {:induction false} BehindShorter(order: seq<string>, key: string)
    requires key in order
    ensures |Behind(order, key)| < |order|
  {
    if order[0] != key { BehindShorter(order[1..], key); }
  }

  lemma NewestDrops(x: string, order: seq<string>, n: nat)
    requires |order| >= n
    ensures Newest([x] + order, n) == Newest(order, n)
  {
  }

  /** Moving a key to the end and then keeping the newest forgets nothing that keeping them first would not. */
  lemma {:induction false} NewestMoved(order: seq<string>, n: nat, k: string)
    requires NoRepeats(order)
    ensures Newest(Without(Newest(order, n), k) + [k], n) == Newest(Without(order, k) + [k], n)
  {
    if |order| > n {
      var rest := order[1..];
      assert Newest(order, n) == Newest(rest, n);
      NewestMoved(rest, n, k);
      if order[0] == k {
        WithoutNothing(rest, k);
      } else {
        WithoutMembers(rest, k);
        assert [order[0]] + Without(rest, k) + [k] == [order[0]] + (Without(rest, k) + [k]);
        NewestDrops(order[0], Without(rest, k) + [k], n);
      }
    }
  }

  /** The map holds the most recently used keys, as many as it may. */
  lemma {:induction false} OrderIsNewest(calls: seq<Call>, capacity: nat)
    requires capacity >= 1
    ensures After(calls, capacity).order == Newest(Recency(calls), capacity) && NoRepeats(Recency(calls))
  {
    if calls != [] {
      var (front, c) := (calls[..|calls| - 1], calls[|calls| - 1]);
      OrderIsNewest(front, capacity);
      KeysBounded(front, capacity);
      OrderStep(After(front, capacity), c, capacity, Recency(front));
    }
  }

  lemma OrderStep(s: State, c: Call, capacity: nat, recency: seq<string>)
    requires capacity >= 1 && Valid(s) && NoRepeats(recency) && s.order == Newest(recency, capacity)
    ensures Acquire(s, c, capacity).0.order == Newest(Without(recency, c.key) + [c.key], capacity)
    ensures NoRepeats(Without(recency, c.key) + [c.key])
  {
    MovedNoRepeats(recency, c.key);
    NewestMoved(recency, capacity, c.key);
    AcquireOrder(s, c, capacity);
  }

  /** Whatever the answer, what is left are the newest of the keys with the caller's moved to the end. */
  lemma AcquireOrder(s: State, c: Call, capacity: nat)
    requires capacity >= 1 && Valid(s) && |s.order| <= capacity
    ensures Acquire(s, c, capacity).0.order == Newest(Without(s.order, c.key) + [c.key], capacity)
  {
    AdmitsIff(s, c, capacity);
    if Acquire(s, c, capacity).1.Admitted? {
      UseThenEvict(s, c.key, capacity, Held(s, c) + [c.now]);
    } else {
      RefusedIsKnown(s, c);
      WithoutMembers(s.order, c.key);
    }
  }

  /** Only a key that is held is ever refused. */
  lemma RefusedIsKnown(s: State, c: Call)
    requires Valid(s) && |Held(s, c)| >= AtLeastOne(c.limit)
    ensures c.key in s.order
  {
    PruneShorter(HitsOf(s, c.key), c.now - AtLeastOne(c.window) as real);
  }

  /** Over any calls, a key that was used is remembered if and only if fewer than `capacity` other keys were used since its
      own last use. */
  lemma RememberedIff(calls: seq<Call>, key: string, capacity: nat)
    requires capacity >= 1
    ensures key in After(calls, capacity).hits <==> Used(calls, key) && |OthersSince(calls, key)| < capacity
  {
    OrderIsNewest(calls, capacity);
    KeysBounded(calls, capacity);
    RecencyTells(calls, key);
    if Used(calls, key) { BehindCounts(Recency(calls), key, capacity); }
  }

  // ---------- The limiter against the full admission log ----------

  /** The times at which the first calls on a key were admitted, oldest first. */
  function Admissions(calls: seq<Call>, key: string, capacity: nat): seq<real>
  {
    if calls == [] then []
    else
      var (front, c) := (calls[..|calls| - 1], calls[|calls| - 1]);
      Admissions(front, key, capacity) +
      if c.key == key && Acquire(After(front, capacity), c, capacity).1.Admitted? then [c.now] else []
  }

  /** The key was forgotten at some point to make room for others. */
  predicate EverEvicted(calls: seq<Call>, key: string, capacity: nat)
  {
    calls != [] && (
      || EverEvicted(calls[..|calls| - 1], key, capacity)
      || (key in Use(After(calls[..|calls| - 1], capacity), calls[|calls| - 1].key, []).hits && key !in After(calls, capacity).hits))
  }

  ghost predicate Monotone(calls: seq<Call>)
  {
    forall i, j :: 0 <= i < j < |calls| ==> calls[i].now <= calls[j].now
  }

  ghost predicate FixedWindow(calls: seq<Call>, key: string, window: nat)
  {
    forall i :: 0 <= i < |calls| && calls[i].key == key ==> AtLeastOne(calls[i].window) == window
  }

  function CountIn(log: seq<real>, lo: real, hi: real): nat
  {
    if log == [] then 0
    else CountIn(log[..|log| - 1], lo, hi) + if lo < log[|log| - 1] <= hi then 1 else 0
  }

  ghost predicate SortedTimes(log: seq<real>)
  {
    forall i, j :: 0 <= i < j < |log| ==> log[i] <= log[j]
  }

  /** What a key's queue holds: a tail of its admission log, everything before that tail having left the window. */
  ghost predicate Remembers(held: seq<real>, log: seq<real>, cutoff: real)
  {
    && |held| <= |log| && held == log[|log| - |held|..]
    && forall i :: 0 <= i < |log| - |held| ==> log[i] <= cutoff
  }

  lemma {:induction false} PruneRemembers(held: seq<real>, log: seq<real>, cutoff: real, cutoff': real)
    requires Remembers(held, log, cutoff) && cutoff <= cutoff'
    ensures Remembers(Prune(held, cutoff'), log, cutoff')
    ensures Prune(held, cutoff') != [] ==> Prune(held, cutoff')[0] > cutoff'
    decreases |held|
  {
    if held != [] && held[0] <= cutoff' {
      assert held[0] == log[|log| - |held|];
      assert held[1..] == log[|log| - |held| + 1..];
      PruneRemembers(held[1..], log, cutoff', cutoff');
    }
  }

  /** The pruned queue is exactly as long as the number of logged admissions still in the window. */
  lemma {:induction false} CountTail(log: seq<real>, d: nat, lo: real, hi: real)
    requires d <= |log| && (forall i :: 0 <= i < d ==> log[i] <= lo) && forall i :: d <= i < |log| ==> lo < log[i] <= hi
    ensures CountIn(log, lo, hi) == |log| - d
  {
    if |log| > d {
      CountTail(log[..|log| - 1], d, lo, hi);
    } else if log != [] {
      CountTail(log[..|log| - 1], d - 1, lo, hi);
    }
  }

  lemma CountRemembered(held: seq<real>, log: seq<real>, lo: real, hi: real)
    requires SortedTimes(log) && Remembers(held, log, lo) && (held != [] ==> held[0] > lo)
    requires forall i :: 0 <= i < |log| ==> log[i] <= hi
    ensures |held| == CountIn(log, lo, hi)
  {
    var d := |log| - |held|;
    forall i | d <= i < |log|
      ensures lo < log[i]
    {
      assert held[0] == log[d] && (i == d || log[d] <= log[i]);
    }
    CountTail(log, d, lo, hi);
  }

  ghost predicate AgreeOn(held: seq<real>, log: seq<real>, window: nat, now: real)
  {
    && SortedTimes(log) && (forall i :: 0 <= i < |log| ==> log[i] <= now)
    && Remembers(held, log, now - window as real)
  }

  /** The queue and the log agree about a key that was never evicted. */
  ghost predicate Agrees(calls: seq<Call>, key: string, window: nat, capacity: nat, now: real)
  {
    AgreeOn(HitsOf(After(calls, capacity), key), Admissions(calls, key, capacity), window, now)
  }

  lemma {:induction false} EvictKeeps(s: State, n: nat, key: string)
    ensures key in Evict(s, n).hits ==> key in s.hits && Evict(s, n).hits[key] == s.hits[key]
    decreases |s.order|
  {
    if |s.order| > n { EvictKeeps(State(s.order[1..], s.hits - {s.order[0]}), n, key); }
  }

  lemma AgreesLater(calls: seq<Call>, key: string, window: nat, capacity: nat, now: real, now': real)
    requires Agrees(calls, key, window, capacity, now) && now <= now'
    ensures Agrees(calls, key, window, capacity, now')
  {
  }

  lemma {:induction false} LogAgrees(calls: seq<Call>, key: string, window: nat, capacity: nat, now: real)
    requires Monotone(calls) && FixedWindow(calls, key, window) && !EverEvicted(calls, key, capacity)
    requires forall i :: 0 <= i < |calls| ==> calls[i].now <= now
    ensures Agrees(calls, key, window, capacity, now)
  {
    if calls != [] {
      var (front, c) := (calls[..|calls| - 1], calls[|calls| - 1]);
      LogAgrees(front, key, window, capacity, c.now);
      StepAgrees(front, c, key, window, capacity);
      assert front + [c] == calls;
      AgreesLater(calls, key, window, capacity, c.now, now);
    }
  }

  /** One more call: what it adds to the log, and what the key's queue becomes unless the key is evicted. */
  lemma StepEffect(front: seq<Call>, c: Call, key: string, capacity: nat)
    requires !EverEvicted(front + [c], key, capacity)
    ensures var (s, held) := (After(front, capacity), Held(After(front, capacity), c));
      var added := if c.key == key && Acquire(s, c, capacity).1.Admitted? then [c.now] else [];
      && Admissions(front + [c], key, capacity) == Admissions(front, key, capacity) + added
      && HitsOf(After(front + [c], capacity), key) == (if c.key == key then held else HitsOf(s, key)) + added
  {
    var calls := front + [c];
    assert calls[..|front|] == front && calls[|front|] == c;
    var s := After(front, capacity);
    assert key in Use(s, c.key, []).hits <==> key == c.key || key in s.hits;
    EvictKeeps(Use(s, c.key, Held(s, c) + [c.now]), capacity, key);
  }

  lemma StepAgrees(front: seq<Call>, c: Call, key: string, window: nat, capacity: nat)
    requires Agrees(front, key, window, capacity, c.now) && (c.key == key ==> AtLeastOne(c.window) == window)
    requires !EverEvicted(front + [c], key, capacity)
    ensures Agrees(front + [c], key, window, capacity, c.now)
  {
    StepEffect(front, c, key, capacity);
    var (s, log) := (After(front, capacity), Admissions(front, key, capacity));
    if c.key == key { HeldAgrees(s, c, log, window); }
    var held := if c.key == key then Held(s, c) else HitsOf(s, key);
    var added := if c.key == key && Acquire(s, c, capacity).1.Admitted? then [c.now] else [];
    AppendAgrees(held, log, added, window, c.now);
  }

  lemma HeldAgrees(s: State, c: Call, log: seq<real>, window: nat)
    requires AgreeOn(HitsOf(s, c.key), log, window, c.now) && AtLeastOne(c.window) == window
    ensures AgreeOn(Held(s, c), log, window, c.now)
    ensures |Held(s, c)| == CountIn(log, c.now - window as real, c.now)
  {
    var cutoff := c.now - window as real;
    PruneRemembers(HitsOf(s, c.key), log, cutoff, cutoff);
    CountRemembered(Held(s, c), log, cutoff, c.now);
  }

  lemma AppendAgrees(held: seq<real>, log: seq<real>, added: seq<real>, window: nat, now: real)
    requires AgreeOn(held, log, window, now) && (added == [] || added == [now])
    ensures AgreeOn(held + added, log + added, window, now)
  {
    if added == [] {
      assert log + added == log && held + added == held;
    } else {
      AppendRemembers(held, log, now - window as real, now);
    }
  }

  lemma AppendRemembers(held: seq<real>, log: seq<real>, cutoff: real, now: real)
    requires Remembers(held, log, cutoff)
    ensures Remembers(held + [now], log + [now], cutoff)
  {
    var log' := log + [now];
    assert log'[|log'| - |held| - 1..] == held + [now];
  }

  /** A call is admitted when fewer hits are held than its limit. */
  lemma AdmitsIff(s: State, c: Call, capacity: nat)
    ensures Acquire(s, c, capacity).1.Admitted? <==> |Held(s, c)| < AtLeastOne(c.limit)
  {
  }

  lemma AdmittedAfter(front: seq<Call>, c: Call, window: nat, capacity: nat)
    requires Monotone(front) && (forall j :: 0 <= j < |front| ==> front[j].now <= c.now)
    requires FixedWindow(front, c.key, window) && AtLeastOne(c.window) == window && !EverEvicted(front, c.key, capacity)
    ensures Acquire(After(front, capacity), c, capacity).1.Admitted?
      <==> CountIn(Admissions(front, c.key, capacity), c.now - window as real, c.now) < AtLeastOne(c.limit)
  {
    LogAgrees(front, c.key, window, capacity, c.now);
    HeldAgrees(After(front, capacity), c, Admissions(front, c.key, capacity), window);
    AdmitsIff(After(front, capacity), c, capacity);
  }

  lemma MonotoneFront(calls: seq<Call>, i: nat, window: nat)
    requires i < |calls| && Monotone(calls) && FixedWindow(calls[..i + 1], calls[i].key, window)
    ensures var (front, c) := (calls[..i], calls[i]);
      Monotone(front) && (forall j :: 0 <= j < i ==> front[j].now <= c.now) && FixedWindow(front, c.key, window)
    ensures AtLeastOne(calls[i].window) == window
  {
    assert calls[..i + 1][i] == calls[i];
    assert forall j :: 0 <= j < i ==> calls[..i][j] == calls[..i + 1][j];
  }

  /** Refinement: for a key never evicted, a call is admitted exactly when fewer than its limit of all
      earlier admissions lie in the window that ends now. */
  lemma AdmittedIffUnderLimit(calls: seq<Call>, i: nat, window: nat, capacity: nat)
    requires i < |calls| && Monotone(calls) && FixedWindow(calls[..i + 1], calls[i].key, window)
    requires !EverEvicted(calls[..i], calls[i].key, capacity)
    ensures AnswerTo(calls, i, capacity).Admitted?
      <==> CountIn(Admissions(calls[..i], calls[i].key, capacity), calls[i].now - window as real, calls[i].now) < AtLeastOne(calls[i].limit)
  {
    MonotoneFront(calls, i, window);
    AdmittedAfter(calls[..i], calls[i], window, capacity);
  }

  // ---------- No window ever overflows ----------

  ghost predicate FixedLimit(calls: seq<Call>, key: string, limit: nat)
  {
    forall i :: 0 <= i < |calls| && calls[i].key == key ==> AtLeastOne(calls[i].limit) == limit
  }

  /** Widening an interval, or dropping the newest entries, changes the count in the obvious direction. */
  lemma {:induction false} CountMonotone(log: seq<real>, lo: real, hi: real, lo': real, hi': real)
    requires lo' <= lo && forall i :: 0 <= i < |log| && lo < log[i] <= hi ==> log[i] <= hi'
    ensures CountIn(log, lo, hi) <= CountIn(log, lo', hi')
  {
    if log != [] { CountMonotone(log[..|log| - 1], lo, hi, lo', hi'); }
  }

  lemma {:induction false} AdmissionsAreCalls(calls: seq<Call>, key: string, capacity: nat, now: real)
    requires forall i :: 0 <= i < |calls| ==> calls[i].now <= now
    ensures forall i :: 0 <= i < |Admissions(calls, key, capacity)| ==> Admissions(calls, key, capacity)[i] <= now
  {
    if calls != [] { AdmissionsAreCalls(calls[..|calls| - 1], key, capacity, now); }
  }

  /** If the new entry found room in the window ending at it, every window of that length has room for it. */
  lemma NewestFits(log: seq<real>, now: real, window: nat, limit: nat, end: real)
    requires CountIn(log, end - window as real, end) <= limit && CountIn(log, now - window as real, now) < limit
    requires forall i :: 0 <= i < |log| ==> log[i] <= now
    ensures CountIn(log + [now], end - window as real, end) <= limit
  {
    var log' := log + [now];
    assert log'[..|log|] == log && log'[|log|] == now;
    if now <= end { CountMonotone(log, end - window as real, end, now - window as real, now); }
  }

  /** Under a fixed limit and window, no interval of the window's length ever holds more than `limit` admissions. */
  lemma {:induction false} NoWindowOverflows(calls: seq<Call>, key: string, window: nat, limit: nat, capacity: nat, end: real)
    requires Monotone(calls) && FixedWindow(calls, key, window) && FixedLimit(calls, key, limit) && limit >= 1
    requires !EverEvicted(calls, key, capacity)
    ensures CountIn(Admissions(calls, key, capacity), end - window as real, end) <= limit
  {
    if calls != [] {
      var n := |calls| - 1;
      NoWindowOverflows(calls[..n], key, window, limit, capacity, end);
      OneMoreFits(calls[..n], calls[n], key, window, limit, capacity, end);
    }
  }

  lemma OneMoreFits(front: seq<Call>, c: Call, key: string, window: nat, limit: nat, capacity: nat, end: real)
    requires Monotone(front) && (forall j :: 0 <= j < |front| ==> front[j].now <= c.now) && FixedWindow(front, key, window)
    requires c.key == key ==> AtLeastOne(c.window) == window && AtLeastOne(c.limit) == limit
    requires !EverEvicted(front, key, capacity)
    requires CountIn(Admissions(front, key, capacity), end - window as real, end) <= limit
    ensures var added := if c.key == key && Acquire(After(front, capacity), c, capacity).1.Admitted? then [c.now] else [];
      CountIn(Admissions(front, key, capacity) + added, end - window as real, end) <= limit
  {
    var log := Admissions(front, key, capacity);
    if c.key == key && Acquire(After(front, capacity), c, capacity).1.Admitted? {
      AdmittedAfter(front, c, window, capacity);
      AdmissionsAreCalls(front, key, capacity, c.now);
      NewestFits(log, c.now, window, limit, end);
    } else {
      assert log + [] == log;
    }
  }

  // ---------- Waiting as told ----------

  /** Under a clock that does not run backwards, every queue is in time order and in the past. */
  lemma {:induction false} QueuesInOrder(calls: seq<Call>, key: string, capacity: nat, now: real)
    requires Monotone(calls) && forall i :: 0 <= i < |calls| ==> calls[i].now <= now
    ensures var hits := HitsOf(After(calls, capacity), key); SortedTimes(hits) && forall t :: t in hits ==> t <= now
  {
    if calls != [] {
      var (front, c) := (calls[..|calls| - 1], calls[|calls| - 1]);
      var s := After(front, capacity);
      QueuesInOrder(front, key, capacity, c.now);
      EvictKeeps(Use(s, c.key, Held(s, c) + [c.now]), capacity, key);
      if c.key == key { PruneInOrder(HitsOf(s, key), c.now - AtLeastOne(c.window) as real, c.now); }
    }
  }

  lemma {:induction false} PruneIsTail(hits: seq<real>, cutoff: real)
    ensures |Prune(hits, cutoff)| <= |hits| && Prune(hits, cutoff) == hits[|hits| - |Prune(hits, cutoff)|..]
    ensures Prune(hits, cutoff) != [] ==> Prune(hits, cutoff)[0] > cutoff
  {
    if hits != [] && hits[0] <= cutoff { PruneIsTail(hits[1..], cutoff); }
  }

  lemma PruneInOrder(hits: seq<real>, cutoff: real, now: real)
    requires SortedTimes(hits) && forall t :: t in hits ==> t <= now
    ensures var held := Prune(hits, cutoff);
      SortedTimes(held) && SortedTimes(held + [now]) && (forall t :: t in held ==> t <= now) && (held != [] ==> held[0] > cutoff)
  {
    PruneIsTail(hits, cutoff);
    TailInOrder(hits, |hits| - |Prune(hits, cutoff)|, now);
  }

  lemma TailInOrder(hits: seq<real>, d: nat, now: real)
    requires d <= |hits| && SortedTimes(hits) && forall t :: t in hits ==> t <= now
    ensures SortedTimes(hits[d..]) && SortedTimes(hits[d..] + [now]) && forall t :: t in hits[d..] ==> t <= now
  {
    assert forall i :: 0 <= i < |hits| ==> hits[i] in hits;
  }

  /** The wait a denied caller is told is between one second and one second more than the window. */
  lemma RetryBounds(calls: seq<Call>, n: nat, capacity: nat)
    requires Monotone(calls) && n < |calls| && AnswerTo(calls, n, capacity).Denied?
    ensures 1 <= AnswerTo(calls, n, capacity).retryAfter <= AtLeastOne(calls[n].window) + 1
  {
    var (s, c) := (After(calls[..n], capacity), calls[n]);
    QueuesInOrder(calls[..n], c.key, capacity, c.now);
    PruneInOrder(HitsOf(s, c.key), c.now - AtLeastOne(c.window) as real, c.now);
    assert Held(s, c)[0] in Held(s, c);
  }

  /** Waiting the advertised time outlasts the oldest remembered hit. */
  lemma RetryOutlasts(oldest: real, window: nat, now: real)
    requires oldest + window as real - now >= 0.0
    ensures now + RetryAfter(oldest, window, now) as real - window as real >= oldest
  {
  }

  lemma {:induction false} PruneLength(hits: seq<real>, cutoff: real, limit: nat)
    requires SortedTimes(hits) && 1 <= limit <= |hits|
    ensures |Prune(hits, cutoff)| < limit <==> hits[|hits| - limit] <= cutoff
    decreases |hits|
  {
    if hits[0] <= cutoff {
      if limit <= |hits| - 1 {
        PruneLength(hits[1..], cutoff, limit);
      } else {
        PruneShorter(hits[1..], cutoff);
      }
    } else if |hits| != limit {
      assert hits[0] <= hits[|hits| - limit];
    }
  }

  lemma {:induction false} PruneShorter(hits: seq<real>, cutoff: real)
    ensures |Prune(hits, cutoff)| <= |hits|
    decreases |hits|
  {
    if hits != [] && hits[0] <= cutoff { PruneShorter(hits[1..], cutoff); }
  }

  /** A later call with the same limit and window is admitted exactly when the limit-th newest hit has expired. */
  lemma RetryAdmittedIff(s: State, c: Call, capacity: nat, s': State, c': Call)
    requires Acquire(s, c, capacity).1.Denied? && SortedTimes(HitsOf(s, c.key))
    requires c'.key == c.key && c'.limit == c.limit && c'.window == c.window && HitsOf(s', c.key) == Held(s, c)
    ensures var (held, limit) := (Held(s, c), AtLeastOne(c.limit));
      Acquire(s', c', capacity).1.Admitted? <==> held[|held| - limit] <= c'.now - AtLeastOne(c.window) as real
  {
    PruneIsTail(HitsOf(s, c.key), c.now - AtLeastOne(c.window) as real);
    AdmitsIff(s, c, capacity);
    AdmitsIff(s', c', capacity);
    PruneLength(Held(s, c), c'.now - AtLeastOne(c.window) as real, AtLeastOne(c.limit));
  }

  /** Calls on other keys leave a key's queue alone, or evict it. */
  lemma {:induction false} OthersKeepOrEvict(calls: seq<Call>, n: nat, key: string, capacity: nat)
    requires n <= |calls| && forall i :: n <= i < |calls| ==> calls[i].key != key
    ensures HitsOf(After(calls, capacity), key) == HitsOf(After(calls[..n], capacity), key)
         || HitsOf(After(calls, capacity), key) == []
    decreases |calls|
  {
    if |calls| > n {
      var front := calls[..|calls| - 1];
      OthersKeepOrEvict(front, n, key, capacity);
      assert front[..n] == calls[..n];
      var (s, c) := (After(front, capacity), calls[|calls| - 1]);
      EvictKeeps(Use(s, c.key, Held(s, c) + [c.now]), capacity, key);
    } else {
      assert calls[..n] == calls;
    }
  }

  /** A denied caller who waits as told is admitted, if nobody else used the key and no more than `limit` hits were held. */
  lemma WaitingIsRewarded(calls: seq<Call>, n: nat, m: nat, capacity: nat)
    requires n < m < |calls| && Monotone(calls)
    requires AnswerTo(calls, n, capacity).Denied? && |Held(After(calls[..n], capacity), calls[n])| <= AtLeastOne(calls[n].limit)
    requires calls[m] == calls[n].(now := calls[m].now)
    requires calls[m].now >= calls[n].now + AnswerTo(calls, n, capacity).retryAfter as real
    requires forall i :: n < i < m ==> calls[i].key != calls[n].key
    ensures AnswerTo(calls, m, capacity).Admitted?
  {
    var (s, c) := (After(calls[..n], capacity), calls[n]);
    var between := calls[..m];
    assert between[..n + 1][..n] == calls[..n] && between[..n + 1][n] == c;
    assert After(between[..n + 1], capacity) == Acquire(s, c, capacity).0;
    OthersKeepOrEvict(between, n + 1, c.key, capacity);
    WaitPays(s, c, After(between, capacity), calls[m], capacity);
  }

  lemma WaitPays(s: State, c: Call, s': State, c': Call, capacity: nat)
    requires Acquire(s, c, capacity).1.Denied? && |Held(s, c)| <= AtLeastOne(c.limit)
    requires c' == c.(now := c'.now) && c'.now >= c.now + Acquire(s, c, capacity).1.retryAfter as real
    requires HitsOf(s', c.key) == Held(s, c) || HitsOf(s', c.key) == []
    ensures Acquire(s', c', capacity).1.Admitted?
  {
    var (held, window) := (Held(s, c), AtLeastOne(c.window));
    PruneIsTail(HitsOf(s, c.key), c.now - window as real);
    AdmitsIff(s, c, capacity);
    RetryOutlasts(held[0], window, c.now);
    PruneShorter(held[1..], c'.now - window as real);
    AdmitsIff(s', c', capacity);
  }

  /** One more call of a sequence. */
  lemma AfterNext(calls: seq<Call>, c: Call, capacity: nat)
    ensures After(calls + [c], capacity) == Acquire(After(calls, capacity), c, capacity).0
    ensures AnswerTo(calls + [c], |calls|, capacity) == Acquire(After(calls, capacity), c, capacity).1
  {
    assert (calls + [c])[..|calls|] == calls;
  }

  lemma OneKeyUsed(hits: seq<real>, hits': seq<real>)
    ensures Use(State(["k"], map["k" := hits]), "k", hits') == State(["k"], map["k" := hits'])
  {
    assert Without(["k"], "k") == [] && [] + ["k"] == ["k"];
    assert map["k" := hits]["k" := hits'] == map["k" := hits'];
  }

  lemma AdmissionAppends(s: State, c: Call, hits: seq<real>, s': State)
    requires Held(s, c) == hits && |hits| < AtLeastOne(c.limit)
    requires s' == Use(s, c.key, hits + [c.now]) && |s'.order| <= 1
    ensures Acquire(s, c, 1).0 == s'
  {
  }

  lemma OneKeyHeld(hits: seq<real>, c: Call)
    requires c.key == "k" && Prune(hits, c.now - AtLeastOne(c.window) as real) == hits
    ensures Held(State(["k"], map["k" := hits]), c) == hits
  {
  }

  /** A call that finds room appends; nobody else is there to be evicted. */
  lemma OneKeyAppends(hits: seq<real>, c: Call)
    requires c.key == "k" && Prune(hits, c.now - AtLeastOne(c.window) as real) == hits && |hits| < AtLeastOne(c.limit)
    ensures Acquire(State(["k"], map["k" := hits]), c, 1).0 == State(["k"], map["k" := hits + [c.now]])
  {
    var added := hits + [c.now];
    OneKeyHeld(hits, c);
    OneKeyUsed(hits, added);
    AdmissionAppends(State(["k"], map["k" := hits]), c, hits, State(["k"], map["k" := added]));
  }

  /** Three calls under a limit of three, the last two close to each other. */
  const THREE_HITS := [Call("k", 3, 10, 1.0), Call("k", 3, 10, 5.0), Call("k", 3, 10, 5.5)]

  lemma ThreeHitsHeld()
    ensures After(THREE_HITS, 1) == State(["k"], map["k" := [1.0, 5.0, 5.5]])
  {
    var (a, b, c) := (THREE_HITS[0], THREE_HITS[1], THREE_HITS[2]);
    assert [] + [a] == [a] && [a] + [b] == [a, b] && [a, b] + [c] == THREE_HITS;
    AfterNext([], a, 1);
    AfterNext([a], b, 1);
    AfterNext([a, b], c, 1);
    assert Held(EMPTY, a) == [] && [] + [1.0] == [1.0] && [1.0] + [5.0] == [1.0, 5.0] && [1.0, 5.0] + [5.5] == [1.0, 5.0, 5.5];
    assert After([], 1) == EMPTY && Use(EMPTY, "k", [1.0]) == State(["k"], map["k" := [1.0]]);
    OneKeyAppends([1.0], b);
    OneKeyAppends([1.0, 5.0], c);
  }

  /** Holding more than the limit, as when it was lowered, the same wait may not be enough: told to wait six seconds,
      the caller waits six seconds and is refused. */
  lemma WaitingCanFail()
    ensures var calls := THREE_HITS + [Call("k", 1, 10, 6.0), Call("k", 1, 10, 12.0)];
      AnswerTo(calls, 3, 1) == Denied(6) && AnswerTo(calls, 4, 1).Denied?
  {
    var (c, c') := (Call("k", 1, 10, 6.0), Call("k", 1, 10, 12.0));
    var calls := THREE_HITS + [c, c'];
    var s := State(["k"], map["k" := [1.0, 5.0, 5.5]]);
    ThreeHitsHeld();
    assert calls[..3] == THREE_HITS && calls[..4] == THREE_HITS + [c];
    AfterNext(THREE_HITS, c, 1);
    assert Held(s, c) == [1.0, 5.0, 5.5];
    assert RetryAfter(1.0, 10, 6.0) == 6;
    var s' := Acquire(s, c, 1).0;
    assert HitsOf(s', "k") == [1.0, 5.0, 5.5] && [1.0, 5.0, 5.5][1..] == [5.0, 5.5];
    assert Prune([5.0, 5.5], 2.0) == [5.0, 5.5];
    assert Prune([1.0, 5.0, 5.5], 2.0) == [5.0, 5.5];
    assert Held(s', c') == [5.0, 5.5];
  }
}
