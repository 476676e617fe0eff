/**
  The in-memory sliding-window rate limiter of common/rate-limit.go: a bounded queue of admission times per
  key, and a background sweep that deletes the queues of idle keys.
*/
module RateLimiter {

  /** The queue stored under a key, oldest first. */
  datatype Queue = Absent | Present(times: seq<int>)

  /** A negative limit stops the process when the first queue of a key is made. */
  datatype Limit = Limit(max: nat, duration: int)

  /** `Request`: the decision and the queue it leaves. */
  function Admit(q: Queue, lim: Limit, now: int): (bool, Queue)
    requires q.Present? ==> q.times != []
  {
    if q.Absent? then (true, Present([now]))
    else if |q.times| < lim.max then (true, Present(q.times + [now]))
    else if now - q.times[0] >= lim.duration then (true, Present(q.times[1..] + [now]))
    else (false, q)
  }

  /** One key of one pass of `clearExpiredItems`. */
  function Sweep(q: Queue, expiration: int, now: int): Queue {
    if q.Present? && (q.times == [] || now - q.times[|q.times| - 1] > expiration) then Absent else q
  }

  // ----- the specification: count the whole history -----

  /** How many of the admitted requests are younger than `duration`. */
  function Young(log: seq<int>, now: int, duration: int): nat {
    if log == [] then 0
    else Young(log[..|log| - 1], now, duration) + if now - log[|log| - 1] < duration then 1 else 0
  }

  ghost predicate Sorted(log: seq<int>) {
    forall i, j | 0 <= i <= j < |log| :: log[i] <= log[j]
  }

  /** In any window of `duration` seconds at most `max` requests were admitted. */
  ghost predicate WindowBounded(log: seq<int>, lim: Limit) {
    forall i, j | 0 <= i <= j < |log| && log[j] - log[i] < lim.duration :: j - i + 1 <= lim.max
  }

  /** In a sorted history the young requests are those from some point on. */
  lemma {:induction false} YoungFrom(log: seq<int>, now: int, duration: int, k: nat)
    requires Sorted(log) && k <= |log|
    requires k == |log| || now - log[k] < duration
    requires k == 0 || now - log[k - 1] >= duration
    ensures Young(log, now, duration) == |log| - k
  {
    if log != [] {
      var before := log[..|log| - 1];
      if k == |log| {
        if k > 1 {
          assert log[k - 2] <= log[k - 1];
        }
        YoungFrom(before, now, duration, k - 1);
      } else {
        assert log[k] <= log[|log| - 1];
        YoungFrom(before, now, duration, k);
      }
    }
  }

  /** The first young request. */
  function FirstYoung(log: seq<int>, now: int, duration: int): (k: nat)
    requires Sorted(log)
    ensures k <= |log|
    ensures forall i | 0 <= i < |log| :: now - log[i] < duration <==> k <= i
  {
    if log == [] || now - log[|log| - 1] >= duration then |log|
    else FirstYoung(log[..|log| - 1], now, duration)
  }

  lemma YoungCount(log: seq<int>, now: int, duration: int)
    requires Sorted(log)
    ensures Young(log, now, duration) == |log| - FirstYoung(log, now, duration)
  {
    YoungFrom(log, now, duration, FirstYoung(log, now, duration));
  }

  // ----- what ties a queue to the history of its key -----

  ghost predicate HistorySound(log: seq<int>, lim: Limit, clock: int) {
    Sorted(log) && (log != [] ==> log[|log| - 1] <= clock) && WindowBounded(log, lim)
  }

  /** The queue is the end of the history; whatever it has lost is old, or is crowded out by `max` newer ones. */
  ghost predicate QueueSound(q: Queue, log: seq<int>, lim: Limit, clock: int) {
    var kept := if q.Present? then |q.times| else 0;
    && (q.Present? ==> 0 < kept <= |log| && q.times == log[|log| - kept..] && kept <= lim.max)
    && (kept < |log| && kept < lim.max ==> clock - log[|log| - kept - 1] >= lim.duration)
  }

  ghost predicate Tied(q: Queue, log: seq<int>, lim: Limit, clock: int) {
    HistorySound(log, lim, clock) && QueueSound(q, log, lim, clock)
  }

  /** `Request` admits exactly when fewer than `max` requests of the whole history are young. */
  lemma AdmitIsExact(q: Queue, log: seq<int>, lim: Limit, clock: int, now: int)
    requires lim.max >= 1 && clock <= now && Tied(q, log, lim, clock)
    ensures Admit(q, lim, now).0 <==> Young(log, now, lim.duration) < lim.max
  {
    YoungCount(log, now, lim.duration);
  }

  lemma WindowExtended(log: seq<int>, lim: Limit, now: int)
    requires Sorted(log) && WindowBounded(log, lim) && Young(log, now, lim.duration) < lim.max
    ensures WindowBounded(log + [now], lim)
  {
    YoungCount(log, now, lim.duration);
    forall i, j | 0 <= i <= j < |log| + 1 && (log + [now])[j] - (log + [now])[i] < lim.duration
      ensures j - i + 1 <= lim.max {
      assert j < |log| ==> log[j] - log[i] < lim.duration;
    }
  }

  lemma HistoryExtended(log: seq<int>, lim: Limit, clock: int, now: int)
    requires HistorySound(log, lim, clock) && clock <= now && Young(log, now, lim.duration) < lim.max
    ensures HistorySound(log + [now], lim, now)
  {
    WindowExtended(log, lim, now);
    assert Sorted(log + [now]);
  }

  lemma AdmitKeepsQueue(q: Queue, log: seq<int>, lim: Limit, clock: int, now: int)
    requires lim.max >= 1 && clock <= now && QueueSound(q, log, lim, clock)
    ensures var (ok, q') := Admit(q, lim, now); QueueSound(q', if ok then log + [now] else log, lim, now)
  {
    var (ok, q') := Admit(q, lim, now);
    if ok {
      var log' := log + [now];
      assert q'.times == log'[|log'| - |q'.times|..];
    }
  }

  lemma AdmitKeepsTied(q: Queue, log: seq<int>, lim: Limit, clock: int, now: int)
    requires lim.max >= 1 && clock <= now && Tied(q, log, lim, clock)
    ensures var (ok, q') := Admit(q, lim, now); Tied(q', if ok then log + [now] else log, lim, now)
  {
    AdmitIsExact(q, log, lim, clock, now);
    AdmitKeepsQueue(q, log, lim, clock, now);
    if Admit(q, lim, now).0 {
      HistoryExtended(log, lim, clock, now);
    }
  }

  /** A swept queue held only requests older than `expiration`, hence, if that is long enough, only old ones. */
  lemma SweepKeepsTied(q: Queue, log: seq<int>, lim: Limit, clock: int, now: int, expiration: int)
    requires clock <= now && expiration >= lim.duration - 1 && Tied(q, log, lim, clock)
    ensures Tied(Sweep(q, expiration, now), log, lim, now)
  {
  }

  lemma TiedLater(q: Queue, log: seq<int>, lim: Limit, clock: int, now: int)
    requires clock <= now && Tied(q, log, lim, clock)
    ensures Tied(q, log, lim, now)
  {
  }

  // ----- one key over every run -----

  datatype Event = Request(now: int) | Pass(now: int)

  /** The stored queue of a key, and the times of all requests ever admitted under it. */
  datatype Key = Key(queue: Queue, log: seq<int>)

  function Step(k: Key, e: Event, lim: Limit, expiration: int): (k': Key)
    requires k.queue.Present? ==> k.queue.times != []
    ensures k'.queue.Present? ==> k'.queue.times != []
  {
    match e
    case Request(now) =>
      var (ok, q) := Admit(k.queue, lim, now);
      Key(q, if ok then k.log + [now] else k.log)
    case Pass(now) => Key(Sweep(k.queue, expiration, now), k.log)
  }

  function Run(events: seq<Event>, lim: Limit, expiration: int): (k: Key)
    ensures k.queue.Present? ==> k.queue.times != []
  {
    if events == [] then Key(Absent, [])
    else Step(Run(events[..|events| - 1], lim, expiration), events[|events| - 1], lim, expiration)
  }

  /** The clock does not run backwards, up to `now`. */
  ghost predicate Timed(events: seq<Event>, now: int) {
    && (forall i, j | 0 <= i <= j < |events| :: events[i].now <= events[j].now)
    && (forall i | 0 <= i < |events| :: events[i].now <= now)
  }

  ghost predicate Exact(events: seq<Event>, lim: Limit, expiration: int, now: int) {
    var k := Run(events, lim, expiration);
    Admit(k.queue, lim, now).0 <==> Young(k.log, now, lim.duration) < lim.max
  }

  lemma StepKeepsTied(k: Key, e: Event, lim: Limit, expiration: int)
    requires lim.max >= 1 && expiration >= lim.duration - 1 && Tied(k.queue, k.log, lim, e.now)
    ensures var k' := Step(k, e, lim, expiration); Tied(k'.queue, k'.log, lim, e.now)
  {
    match e
    case Request(now) => AdmitKeepsTied(k.queue, k.log, lim, now, now);
    case Pass(now) => SweepKeepsTied(k.queue, k.log, lim, now, now, expiration);
  }

  lemma {:induction false} RunIsTied(events: seq<Event>, lim: Limit, expiration: int, now: int)
    requires lim.max >= 1 && expiration >= lim.duration - 1 && Timed(events, now)
    ensures var k := Run(events, lim, expiration); Tied(k.queue, k.log, lim, now)
  {
    if events != [] {
      var before, e := events[..|events| - 1], events[|events| - 1];
      RunIsTied(before, lim, expiration, e.now);
      StepKeepsTied(Run(before, lim, expiration), e, lim, expiration);
      var k := Run(events, lim, expiration);
      TiedLater(k.queue, k.log, lim, e.now, now);
    }
  }

  /** Whatever requests and sweeps came before, the decision is the one that counting the whole history gives,
      and no window admits more than `max`. */
  lemma ExactOverEveryRun(events: seq<Event>, lim: Limit, expiration: int, now: int)
    requires lim.max >= 1 && expiration >= lim.duration - 1 && Timed(events, now)
    ensures Exact(events, lim, expiration, now)
    ensures WindowBounded(Run(events, lim, expiration).log, lim)
  {
    RunIsTied(events, lim, expiration, now);
    var k := Run(events, lim, expiration);
    AdmitIsExact(k.queue, k.log, lim, now, now);
  }

  function Zeros(n: nat): (s: seq<int>)
    ensures |s| == n && forall i | 0 <= i < n :: s[i] == 0
  {
    if n == 0 then [] else Zeros(n - 1) + [0]
  }

  function Requests(n: nat): (s: seq<Event>)
    ensures |s| == n && forall i | 0 <= i < n :: s[i] == Request(0)
  {
    if n == 0 then [] else Requests(n - 1) + [Request(0)]
  }

  /** `n` requests at time 0 under a limit of at least `n`. */
  lemma {:induction false} Burst(n: nat, lim: Limit, expiration: int)
    requires 1 <= n <= lim.max
    ensures Run(Requests(n), lim, expiration) == Key(Present(Zeros(n)), Zeros(n))
  {
    assert Requests(n)[..n - 1] == Requests(n - 1);
    if n > 1 {
      Burst(n - 1, lim, expiration);
    } else {
      assert Requests(0) == [] && Zeros(0) == [] && Zeros(1) == [0];
    }
  }

  /** The burst is forgotten by the first sweep after the expiration. */
  lemma SweptBurst(lim: Limit, expiration: int)
    requires lim.max >= 1 && expiration >= 0
    ensures Run(Requests(lim.max) + [Pass(expiration + 1)], lim, expiration) == Key(Absent, Zeros(lim.max))
  {
    var events := Requests(lim.max) + [Pass(expiration + 1)];
    Burst(lim.max, lim, expiration);
    assert events[..|events| - 1] == Requests(lim.max);
    assert Sweep(Present(Zeros(lim.max)), expiration, expiration + 1) == Absent;
  }

  lemma BurstIsTimed(n: nat, now: int)
    requires now >= 0
    ensures Timed(Requests(n) + [Pass(now)], now)
  {
  }

  /** After the sweep the burst is forgotten but still young, so one request too many is let in. */
  lemma SweptBurstIsInexact(lim: Limit, expiration: int)
    requires lim.max >= 1 && expiration >= 0 && expiration < lim.duration - 1
    ensures !Exact(Requests(lim.max) + [Pass(expiration + 1)], lim, expiration, expiration + 1)
  {
    SweptBurst(lim, expiration);
    YoungFrom(Zeros(lim.max), expiration + 1, lim.duration, 0);
  }

  /** A sweep that comes before the window has passed, or a limit below one, lets too many requests in. */
  lemma ExactFailsOtherwise(lim: Limit, expiration: int) returns (events: seq<Event>, now: int)
    requires expiration >= 0 && !(lim.max >= 1 && expiration >= lim.duration - 1)
    ensures Timed(events, now) && !Exact(events, lim, expiration, now)
  {
    if lim.max < 1 {
      events, now := [], 0;
    } else {
      events, now := Requests(lim.max) + [Pass(expiration + 1)], expiration + 1;
      BurstIsTimed(lim.max, now);
      SweptBurstIsInexact(lim, expiration);
    }
  }

  /** The limiter agrees with counting the whole history on every run if and only if the limit is at least one
      and a queue is kept until its last request has left the window. */
  lemma ExactIff(lim: Limit, expiration: int)
    requires expiration >= 0
    ensures (forall events, now :: Timed(events, now) ==> Exact(events, lim, expiration, now))
       <==> lim.max >= 1 && expiration >= lim.duration - 1
  {
    if lim.max >= 1 && expiration >= lim.duration - 1 {
      forall events, now | Timed(events, now) ensures Exact(events, lim, expiration, now) {
        ExactOverEveryRun(events, lim, expiration, now);
      }
    } else {
      var events, now := ExactFailsOtherwise(lim, expiration);
    }
  }

  // ----- the object, with all its keys -----

  type Times = map<string, seq<int>>

  function QueueOf(store: Times, key: string): Queue {
    if key in store then Present(store[key]) else Absent
  }

  function LogOf(log: Times, key: string): seq<int> {
    if key in log then log[key] else []
  }

  ghost predicate KeyTied(store: Times, log: Times, lim: Limit, clock: int, key: string) {
    Tied(QueueOf(store, key), LogOf(log, key), lim, clock)
  }

  ghost predicate AllTied(store: Times, log: Times, limits: string -> Limit, clock: int) {
    forall key :: KeyTied(store, log, limits(key), clock, key)
  }

  lemma DecisionIsExact(store: Times, log: Times, limits: string -> Limit, clock: int, key: string, now: int)
    requires AllTied(store, log, limits, clock) && clock <= now && limits(key).max >= 1
    ensures key in store ==> store[key] != []
    ensures Admit(QueueOf(store, key), limits(key), now).0 <==>
      Young(LogOf(log, key), now, limits(key).duration) < limits(key).max
  {
    assert KeyTied(store, log, limits(key), clock, key);
    AdmitIsExact(QueueOf(store, key), LogOf(log, key), limits(key), clock, now);
  }

  /** A decision for one key keeps the other keys tied. */
  lemma RequestKeepsAllTied(store: Times, log: Times, limits: string -> Limit, clock: int, key: string, now: int,
      ok: bool, queue: seq<int>)
    requires AllTied(store, log, limits, clock) && clock <= now && limits(key).max >= 1
    requires QueueOf(store, key).Present? ==> store[key] != []
    requires (ok, Present(queue)) == Admit(QueueOf(store, key), limits(key), now)
    ensures AllTied(store[key := queue], if ok then log[key := LogOf(log, key) + [now]] else log, limits, now)
  {
    var log' := if ok then log[key := LogOf(log, key) + [now]] else log;
    forall k ensures KeyTied(store[key := queue], log', limits(k), now, k) {
      assert KeyTied(store, log, limits(k), clock, k);
      if k == key {
        AdmitKeepsTied(QueueOf(store, key), LogOf(log, key), limits(key), clock, now);
      } else {
        TiedLater(QueueOf(store, k), LogOf(log, k), limits(k), clock, now);
      }
    }
  }

  lemma SweepKeepsAllTied(store: Times, store': Times, log: Times, limits: string -> Limit, clock: int, now: int,
      expiration: int)
    requires AllTied(store, log, limits, clock) && clock <= now && forall key :: expiration >= limits(key).duration - 1
    requires forall key :: QueueOf(store', key) == Sweep(QueueOf(store, key), expiration, now)
    ensures AllTied(store', log, limits, now)
  {
    forall key ensures KeyTied(store', log, limits(key), now, key) {
      assert KeyTied(store, log, limits(key), clock, key);
      SweepKeepsTied(QueueOf(store, key), LogOf(log, key), limits(key), clock, now, expiration);
    }
  }

  class InMemoryRateLimiter {
    var store: Times
    const expiration: int
    /** The limit each key is used with, the clock, and all admissions: what the contracts speak about. */
    ghost const limitOf: string -> Limit
    ghost var clock: int
    ghost var log: Times

    /** No queue is ever left empty. */
    ghost predicate Valid()
      reads this
    {
      forall key | key in store :: store[key] != []
    }

    /** Every key is used with its own limit, under which the queues stand for the whole history. */
    ghost predicate Counting()
      reads this
    {
      && (forall key :: limitOf(key).max >= 1 && expiration >= limitOf(key).duration - 1)
      && AllTied(store, log, limitOf, clock)
    }

    constructor (expirationSeconds: int, ghost limits: string -> Limit, ghost start: int)
      ensures Valid() && store == map[] && expiration == expirationSeconds
      ensures limitOf == limits && clock == start && log == map[]
      ensures (forall key :: limits(key).max >= 1 && expirationSeconds >= limits(key).duration - 1) ==> Counting()
    {
      store, expiration := map[], expirationSeconds;
      limitOf, clock, log := limits, start, map[];
    }

    /** The body of `Request` for the queue found under the key, if any. */
    static method Decide(q: Queue, maxRequestNum: nat, duration: int, now: int) returns (ok: bool, next: seq<int>)
      requires q.Present? ==> q.times != []
      ensures (ok, Present(next)) == Admit(q, Limit(maxRequestNum, duration), now)
    {
      ok, next := true, [now];
      if q.Present? {
        var queue := q.times;
        if |queue| < maxRequestNum {
          next := queue + [now];
        } else if now - queue[0] >= duration {
          next := queue[1..];
          next := next + [now];
        } else {
          ok, next := false, queue;
        }
      }
    }

    method Request(key: string, maxRequestNum: nat, duration: int, now: int) returns (ok: bool)
      requires Valid()
      modifies this`store, this`clock, this`log
      ensures Valid() && clock == now && key in store && store == old(store)[key := store[key]]
      ensures (ok, Present(store[key])) == Admit(old(QueueOf(store, key)), Limit(maxRequestNum, duration), now)
      ensures log == if ok then old(log)[key := old(LogOf(log, key)) + [now]] else old(log)
      ensures old(Counting()) && old(clock) <= now && limitOf(key) == Limit(maxRequestNum, duration) ==>
        Counting() && (ok <==> Young(old(LogOf(log, key)), now, duration) < maxRequestNum)
    {
      var next: seq<int>;
      ok, next := Decide(QueueOf(store, key), maxRequestNum, duration, now);
      if Counting() && clock <= now && limitOf(key) == Limit(maxRequestNum, duration) {
        DecisionIsExact(store, log, limitOf, clock, key, now);
        RequestKeepsAllTied(store, log, limitOf, clock, key, now, ok, next);
      }
      store, clock, log := store[key := next], now, if ok then log[key := LogOf(log, key) + [now]] else log;
    }

    /** One pass of the background sweep over the keys, in any order. */
    method ClearExpiredItems(now: int)
      requires Valid()
      modifies this`store, this`clock
      ensures Valid() && clock == now
      ensures forall key :: QueueOf(store, key) == Sweep(old(QueueOf(store, key)), expiration, now)
      ensures old(Counting()) && old(clock) <= now ==> Counting()
    {
      var pending := store.Keys;
      while pending != {}
        invariant pending <= store.Keys && clock == old(clock) && Valid()
        invariant forall key | key in pending :: QueueOf(store, key) == old(QueueOf(store, key))
        invariant forall key | key !in pending ::
          QueueOf(store, key) == Sweep(old(QueueOf(store, key)), expiration, now)
        decreases pending
      {
        var key :| key in pending;
        var queue := store[key];
        if |queue| == 0 || now - queue[|queue| - 1] > expiration {
          store := store - {key};
        }
        pending := pending - {key};
      }
      if old(Counting()) && clock <= now {
        SweepKeepsAllTied(old(store), store, log, limitOf, clock, now, expiration);
      }
      clock := now;
    }
  }
}
