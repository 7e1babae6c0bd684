/**
 The bounded sliding-window rate limiter of ratelimit.py. Its OrderedDict is a sequence
 of (key, deque) entries, least recently used first; the clock is a parameter of `Hit`.
 */
module RateLimiter {
  datatype Entry = Entry(key: string, hits: seq<real>)

  datatype State = State(entries: seq<Entry>, widest: real, ops: nat)

  function Lookup(es: seq<Entry>, key: string): (hits: seq<real>)
    ensures hits != [] ==> Entry(key, hits) in es
  {
    if es == [] then [] else if es[0].key == key then es[0].hits else Lookup(es[1..], key)
  }

  predicate Has(es: seq<Entry>, key: string) {
    exists e :: e in es && e.key == key
  }

  function Without(es: seq<Entry>, key: string): (r: seq<Entry>)
    ensures forall e :: e in r <==> e in es && e.key != key
  {
    if es == [] then [] else if es[0].key == key then Without(es[1..], key) else [es[0]] + Without(es[1..], key)
  }

  /** A deque without the hits that left the window. */
  function Expire(hits: seq<real>, cutoff: real): (r: seq<real>)
    ensures |r| <= |hits| && r == hits[|hits| - |r|..]
  {
    if hits != [] && hits[0] <= cutoff then Expire(hits[1..], cutoff) else hits
  }

  predicate Stale(e: Entry, cutoff: real) {
    e.hits == [] || e.hits[|e.hits| - 1] <= cutoff
  }

  function Fresh(es: seq<Entry>, cutoff: real): (r: seq<Entry>)
    ensures |r| <= |es|
    ensures forall e :: e in r <==> e in es && !Stale(e, cutoff)
  {
    if es == [] then [] else if Stale(es[0], cutoff) then Fresh(es[1..], cutoff) else [es[0]] + Fresh(es[1..], cutoff)
  }

  function Max(a: real, b: real): real {
    if a >= b then a else b
  }

  predicate SweepDue(ops: nat, sweepEvery: nat)
    requires sweepEvery > 0
  {
    ops % sweepEvery == 0
  }

  /** The state a hit finds after the bookkeeping and the amortised sweep. */
  function Prepared(s: State, window: real, now: real, sweepEvery: nat): (p: State)
    requires sweepEvery > 0
    ensures p.widest == Max(s.widest, window)
    ensures p.widest >= window && p.widest >= s.widest
  {
    var widest := Max(s.widest, window);
    State(if SweepDue(s.ops + 1, sweepEvery) then Fresh(s.entries, now - widest) else s.entries, widest, s.ops + 1)
  }

  function Bucket(s: State, key: string, window: real, now: real, sweepEvery: nat): seq<real>
    requires sweepEvery > 0
  {
    Expire(Lookup(Prepared(s, window, now, sweepEvery).entries, key), now - window)
  }

  predicate Rejects(s: State, key: string, limit: nat, window: real, now: real, sweepEvery: nat)
    requires sweepEvery > 0
  {
    |Bucket(s, key, window, now, sweepEvery)| >= limit
  }

  /** Entries beyond the capacity, after a sweep, leave from the least recently used end. */
  function Bounded(es: seq<Entry>, cutoff: real, maxKeys: nat): seq<Entry> {
    if |es| <= maxKeys then es
    else
      var live := Fresh(es, cutoff);
      if |live| <= maxKeys then live else live[|live| - maxKeys..]
  }

  function After(s: State, key: string, limit: nat, window: real, now: real, sweepEvery: nat, maxKeys: nat): State
    requires sweepEvery > 0
  {
    var p := Prepared(s, window, now, sweepEvery);
    var bucket := Bucket(s, key, window, now, sweepEvery);
    var rest := Without(p.entries, key);
    p.(entries := if |bucket| >= limit then rest + [Entry(key, bucket)]
                  else Bounded(rest + [Entry(key, bucket + [now])], now - p.widest, maxKeys))
  }

  lemma FreshNone(cutoff: real)
    ensures Fresh([], cutoff) == []
  {
  }

  lemma {:induction false} FreshEnds(rest: seq<Entry>, last: Entry, cutoff: real)
    ensures Fresh(rest + [last], cutoff) == Fresh(rest, cutoff) + (if Stale(last, cutoff) then [] else [last])
  {
    if rest == [] {
      assert rest + [last] == [last];
      assert [last][1..] == [];
    } else {
      assert (rest + [last])[1..] == rest[1..] + [last];
      FreshEnds(rest[1..], last, cutoff);
    }
  }

  /** The popleft loop. */
  method DropExpired(hits: seq<real>, cutoff: real) returns (bucket: seq<real>)
    ensures bucket == Expire(hits, cutoff)
  {
    bucket := hits;
    while bucket != [] && bucket[0] <= cutoff
      invariant Expire(bucket, cutoff) == Expire(hits, cutoff)
    {
      bucket := bucket[1..];
    }
  }

  class SlidingWindowLimiter {
    var entries: seq<Entry>
    var widest: real
    var ops: nat
    const maxKeys: nat
    const sweepEvery: nat

    ghost function View(): State
      reads this
    {
      State(entries, widest, ops)
    }

    constructor (maxKeys: nat, sweepEvery: nat)
      ensures this.maxKeys == maxKeys && this.sweepEvery == sweepEvery
      ensures View() == State([], 0.0, 0)
    {
      this.maxKeys, this.sweepEvery := maxKeys, sweepEvery;
      entries, widest, ops := [], 0.0, 0;
    }

    /** Returns true to reject; a rejected attempt is not recorded. */
    method Hit(key: string, limit: nat, window: real, now: real) returns (rejected: bool)
      requires sweepEvery > 0
      modifies this
      ensures rejected == Rejects(old(View()), key, limit, window, now, sweepEvery)
      ensures View() == After(old(View()), key, limit, window, now, sweepEvery, maxKeys)
    {
      hide Expire, Fresh, Lookup, Without, Prepared, Bounded;
      ghost var before := View();
      Prepare(window, now);
      ghost var p := View();
      var bucket := DropExpired(Lookup(entries, key), now - window);
      var rest := Without(entries, key);
      assert p == Prepared(before, window, now, sweepEvery);
      assert bucket == Bucket(before, key, window, now, sweepEvery);
      if |bucket| >= limit {
        entries := rest + [Entry(key, bucket)];
        assert View() == p.(entries := rest + [Entry(key, bucket)]);
        return true;
      }
      entries := rest + [Entry(key, bucket + [now])];
      KeepWithin(now);
      assert View() == p.(entries := Bounded(rest + [Entry(key, bucket + [now])], now - p.widest, maxKeys));
      return false;
    }

    /** The capacity check after an accepted hit. */
    method KeepWithin(now: real)
      modifies this`entries
      ensures entries == Bounded(old(entries), now - widest, maxKeys)
    {
      hide Fresh;
      if |entries| > maxKeys {
        var _ := Sweep(now);
        EvictOldest();
      }
    }

    /** The widest window, the operation count and the amortised sweep. */
    method Prepare(window: real, now: real)
      requires sweepEvery > 0
      modifies this
      ensures View() == Prepared(old(View()), window, now, sweepEvery)
    {
      hide Fresh, SweepDue, Max;
      widest := Max(widest, window);
      ops := ops + 1;
      if SweepDue(ops, sweepEvery) {
        var _ := Sweep(now);
      }
    }

    /** Drops the buckets that can no longer affect a decision. */
    method Sweep(now: real) returns (removed: nat)
      modifies this`entries
      ensures entries == Fresh(old(entries), now - widest)
      ensures removed == |old(entries)| - |entries|
    {
      hide Fresh;
      var cutoff := now - widest;
      var kept := [];
      removed := 0;
      FreshNone(cutoff);
      for i := 0 to |entries|
        invariant entries == old(entries)
        invariant kept == Fresh(entries[..i], cutoff)
        invariant removed == i - |kept|
      {
        assert entries[..i + 1] == entries[..i] + [entries[i]];
        FreshEnds(entries[..i], entries[i], cutoff);
        if Stale(entries[i], cutoff) {
          removed := removed + 1;
        } else {
          kept := kept + [entries[i]];
        }
      }
      assert entries[..|entries|] == entries;
      entries := kept;
    }

    /** popitem(last=False) until the capacity holds. */
    method EvictOldest()
      modifies this`entries
      ensures var all := old(entries);
        entries == if |all| <= maxKeys then all else all[|all| - maxKeys..]
    {
      ghost var all := entries;
      while |entries| > maxKeys
        invariant |entries| <= |all| && entries == all[|all| - |entries|..]
        invariant |all| <= maxKeys ==> entries == all
        invariant |all| > maxKeys ==> |entries| >= maxKeys
      {
        entries := entries[1..];
      }
    }

    method Clear()
      modifies this
      ensures View() == State([], 0.0, 0)
    {
      entries, widest, ops := [], 0.0, 0;
    }
  }

  // ------------------------------------------------------------------------- runs

  /** One policy per key, as the callers use the limiter. */
  datatype Config = Config(maxKeys: nat, sweepEvery: nat, limit: string -> nat, window: string -> real)

  datatype Event = Event(key: string, now: real)

  ghost predicate ValidConfig(c: Config) {
    c.maxKeys > 0 && c.sweepEvery > 0 && forall k :: c.limit(k) > 0 && c.window(k) > 0.0
  }

  function Next(c: Config, s: State, e: Event): State
    requires c.sweepEvery > 0
  {
    After(s, e.key, c.limit(e.key), c.window(e.key), e.now, c.sweepEvery, c.maxKeys)
  }

  predicate Refuses(c: Config, s: State, e: Event)
    requires c.sweepEvery > 0
  {
    Rejects(s, e.key, c.limit(e.key), c.window(e.key), e.now, c.sweepEvery)
  }

  function Run(c: Config, events: seq<Event>): State
    requires c.sweepEvery > 0
  {
    if events == [] then State([], 0.0, 0)
    else Next(c, Run(c, events[..|events| - 1]), events[|events| - 1])
  }

  ghost predicate Monotone(events: seq<Event>) {
    forall i, j :: 0 <= i < j < |events| ==> events[i].now <= events[j].now
  }

  // ----------------------------------------------------------------------- capacity

  ghost predicate TimesSorted(hits: seq<real>) {
    forall i, j :: 0 <= i < j < |hits| ==> hits[i] <= hits[j]
  }

  /** The position of the last event about a key; -1 when there is none. */
  function LastUse(events: seq<Event>, key: string): (i: int)
    ensures -1 <= i < |events|
    ensures i >= 0 ==> events[i].key == key
    ensures forall j :: i < j < |events| ==> events[j].key != key
  {
    if events == [] then -1
    else if events[|events| - 1].key == key then |events| - 1
    else LastUse(events[..|events| - 1], key)
  }

  /** Entries listed in order of last use. */
  ghost predicate UseOrdered(es: seq<Entry>, events: seq<Event>) {
    forall i, j :: 0 <= i < j < |es| ==> LastUse(events, es[i].key) < LastUse(events, es[j].key)
  }

  /** A deque as the limiter keeps it: never empty, sorted, none of its times later than now. */
  ghost predicate GoodDeque(hits: seq<real>, now: real) {
    hits != [] && TimesSorted(hits) && hits[|hits| - 1] <= now
  }

  ghost predicate GoodDeques(es: seq<Entry>, now: real) {
    forall e :: e in es ==> GoodDeque(e.hits, now)
  }

  function LastTime(events: seq<Event>): real {
    if events == [] then 0.0 else events[|events| - 1].now
  }

  /** What every reachable state satisfies. */
  ghost predicate Healthy(c: Config, s: State, events: seq<Event>) {
    |s.entries| <= c.maxKeys && GoodDeques(s.entries, LastTime(events)) && UseOrdered(s.entries, events)
  }

  lemma PrependOrdered(e: Entry, es: seq<Entry>, events: seq<Event>)
    requires UseOrdered(es, events)
    requires forall x | x in es :: LastUse(events, e.key) < LastUse(events, x.key)
    ensures UseOrdered([e] + es, events)
  {
    hide LastUse;
    var all := [e] + es;
    forall i, j | 0 <= i < j < |all| ensures LastUse(events, all[i].key) < LastUse(events, all[j].key) {
      assert all[j] == es[j - 1] && es[j - 1] in es;
    }
  }

  lemma OrderedParts(es: seq<Entry>, events: seq<Event>)
    requires UseOrdered(es, events) && es != []
    ensures UseOrdered(es[1..], events)
    ensures forall x | x in es[1..] :: LastUse(events, es[0].key) < LastUse(events, x.key)
  {
    hide LastUse;
  }

  lemma {:induction false} FreshOrdered(es: seq<Entry>, cutoff: real, events: seq<Event>)
    requires UseOrdered(es, events)
    ensures UseOrdered(Fresh(es, cutoff), events)
  {
    hide LastUse, UseOrdered, Stale;
    if es != [] {
      OrderedParts(es, events);
      FreshOrdered(es[1..], cutoff, events);
      PrependOrdered(es[0], Fresh(es[1..], cutoff), events);
    } else {
      FreshNone(cutoff);
    }
  }

  lemma {:induction false} WithoutOrdered(es: seq<Entry>, key: string, events: seq<Event>)
    requires UseOrdered(es, events)
    ensures UseOrdered(Without(es, key), events)
    ensures Lookup(es, key) != [] ==> |Without(es, key)| < |es|
    ensures |Without(es, key)| <= |es|
  {
    hide LastUse, UseOrdered;
    if es != [] {
      OrderedParts(es, events);
      WithoutOrdered(es[1..], key, events);
      PrependOrdered(es[0], Without(es[1..], key), events);
    } else {
      NothingWithout(key);
    }
  }

  lemma NothingWithout(key: string)
    ensures Without([], key) == [] && Lookup([], key) == []
  {
  }

  lemma PushOrdered(es: seq<Entry>, entry: Entry, events: seq<Event>, now: real)
    requires UseOrdered(es, events) && forall e :: e in es ==> e.key != entry.key
    ensures UseOrdered(es + [entry], events + [Event(entry.key, now)])
  {
    var more := events + [Event(entry.key, now)];
    assert more[..|events|] == events;
    forall i | 0 <= i < |es| ensures LastUse(more, es[i].key) == LastUse(events, es[i].key) {
      assert es[i] in es;
    }
  }

  lemma {:induction false} ExpireGood(hits: seq<real>, cutoff: real, now: real)
    requires hits == [] || GoodDeque(hits, now)
    ensures Expire(hits, cutoff) == [] || GoodDeque(Expire(hits, cutoff), now)
  {
    if hits != [] && hits[0] <= cutoff {
      ExpireGood(hits[1..], cutoff, now);
    }
  }

  /** The invariants of a hit before the capacity is enforced. */
  lemma PreparedHealthy(c: Config, s: State, events: seq<Event>, e: Event)
    requires ValidConfig(c) && Healthy(c, s, events)
    requires events != [] ==> LastTime(events) <= e.now
    requires events == [] ==> s.entries == []
    ensures var p := Prepared(s, c.window(e.key), e.now, c.sweepEvery);
      && |p.entries| <= c.maxKeys && GoodDeques(p.entries, e.now) && UseOrdered(p.entries, events)
  {
    hide LastUse, Fresh, SweepDue;
    FreshOrdered(s.entries, e.now - Max(s.widest, c.window(e.key)), events);
  }

  /** The table re-filed by a hit, before the capacity is enforced. */
  function Filed(c: Config, s: State, e: Event): seq<Entry>
    requires c.sweepEvery > 0
  {
    var bucket := Bucket(s, e.key, c.window(e.key), e.now, c.sweepEvery);
    Without(Prepared(s, c.window(e.key), e.now, c.sweepEvery).entries, e.key)
      + [Entry(e.key, if Refuses(c, s, e) then bucket else bucket + [e.now])]
  }

  lemma NextEntries(c: Config, s: State, e: Event)
    requires c.sweepEvery > 0
    ensures var p := Prepared(s, c.window(e.key), e.now, c.sweepEvery);
      && Next(c, s, e).widest == p.widest
      && Next(c, s, e).entries ==
           if Refuses(c, s, e) then Filed(c, s, e) else Bounded(Filed(c, s, e), e.now - p.widest, c.maxKeys)
  {
    hide Prepared, Bucket, Without, Bounded;
  }

  lemma FiledHealthy(c: Config, s: State, events: seq<Event>, e: Event)
    requires ValidConfig(c) && Healthy(c, s, events)
    requires events != [] ==> LastTime(events) <= e.now
    requires events == [] ==> s.entries == []
    ensures UseOrdered(Filed(c, s, e), events + [e]) && GoodDeques(Filed(c, s, e), e.now)
    ensures Refuses(c, s, e) ==> |Filed(c, s, e)| <= c.maxKeys
  {
    hide LastUse, Without, Prepared, UseOrdered, Bucket, GoodDeque;
    PreparedHealthy(c, s, events, e);
    BucketGood(c, s, e);
    var es := Prepared(s, c.window(e.key), e.now, c.sweepEvery).entries;
    WithoutOrdered(es, e.key, events);
    PushOrdered(Without(es, e.key), Filed(c, s, e)[|Without(es, e.key)|], events, e.now);
  }

  /** What the hit key will hold is a good deque; a refusal means it held hits already. */
  lemma BucketGood(c: Config, s: State, e: Event)
    requires ValidConfig(c) && GoodDeques(Prepared(s, c.window(e.key), e.now, c.sweepEvery).entries, e.now)
    ensures var bucket := Bucket(s, e.key, c.window(e.key), e.now, c.sweepEvery);
      && GoodDeque(if Refuses(c, s, e) then bucket else bucket + [e.now], e.now)
      && (Refuses(c, s, e) ==> Lookup(Prepared(s, c.window(e.key), e.now, c.sweepEvery).entries, e.key) != [])
  {
    hide Prepared, Lookup, Expire, GoodDeque;
    var hits := Lookup(Prepared(s, c.window(e.key), e.now, c.sweepEvery).entries, e.key);
    assert hits == [] || GoodDeque(Entry(e.key, hits).hits, e.now);
    ExpireGood(hits, e.now - c.window(e.key), e.now);
    var bucket := Expire(hits, e.now - c.window(e.key));
    if bucket == [] || GoodDeque(bucket, e.now) {
      PushGood(bucket, e.now);
    }
  }

  /** Capacity, time order and last-use order survive every hit. */
  lemma HitHealthy(c: Config, s: State, events: seq<Event>, e: Event)
    requires ValidConfig(c) && Healthy(c, s, events)
    requires events != [] ==> LastTime(events) <= e.now
    requires events == [] ==> s.entries == []
    ensures Healthy(c, Next(c, s, e), events + [e])
    ensures Next(c, s, e).entries != [] && Next(c, s, e).entries[|Next(c, s, e).entries| - 1].key == e.key
  {
    hide LastUse, Prepared, UseOrdered, GoodDeque, Bounded, Next, Refuses, Without, Bucket;
    NextEntries(c, s, e);
    FiledHealthy(c, s, events, e);
    var f, p := Filed(c, s, e), Prepared(s, c.window(e.key), e.now, c.sweepEvery);
    if !Refuses(c, s, e) {
      var rest, hit := f[..|f| - 1], f[|f| - 1];
      assert f == rest + [hit];
      assert hit.hits != [] && hit.hits[|hit.hits| - 1] == e.now;
      BoundedHealthy(c, rest, hit, events + [e], e.now, e.now - p.widest);
    }
  }

  lemma PushGood(bucket: seq<real>, now: real)
    requires bucket == [] || GoodDeque(bucket, now)
    ensures GoodDeque(bucket + [now], now)
  {
  }

  lemma BoundedHealthy(c: Config, rest: seq<Entry>, hit: Entry, events: seq<Event>, now: real, cutoff: real)
    requires ValidConfig(c) && UseOrdered(rest + [hit], events) && GoodDeques(rest + [hit], now)
    requires hit.hits != [] && hit.hits[|hit.hits| - 1] > cutoff
    ensures var r := Bounded(rest + [hit], cutoff, c.maxKeys);
      |r| <= c.maxKeys && UseOrdered(r, events) && GoodDeques(r, now) && r != [] && r[|r| - 1] == hit
  {
    hide LastUse, GoodDeque, Fresh, UseOrdered;
    var live := Fresh(rest + [hit], cutoff);
    FreshOrdered(rest + [hit], cutoff, events);
    FreshEnds(rest, hit, cutoff);
    if |live| > c.maxKeys {
      SuffixOrdered(live, |live| - c.maxKeys, events);
    }
  }

  lemma SuffixOrdered(es: seq<Entry>, k: nat, events: seq<Event>)
    requires UseOrdered(es, events) && k <= |es|
    ensures UseOrdered(es[k..], events)
  {
  }

  /** Every reachable state is within capacity, its deques sorted, its keys in last-use order. */
  lemma {:induction false} ReachableHealthy(c: Config, events: seq<Event>)
    requires ValidConfig(c) && Monotone(events)
    ensures Healthy(c, Run(c, events), events)
  {
    hide LastUse, Next;
    if events != [] {
      var n := |events| - 1;
      ReachableHealthy(c, events[..n]);
      assert events[..n] + [events[n]] == events;
      assert n > 0 ==> LastTime(events[..n]) == events[n - 1].now;
      HitHealthy(c, Run(c, events[..n]), events[..n], events[n]);
    }
  }

  /**
   Capacity eviction takes exactly the surplus, from the least recently used end: whatever is
   dropped after the sweep was used before everything that stays, and the key just hit stays.
   */
  lemma EvictsLeastRecentlyUsed(rest: seq<Entry>, hit: Entry, events: seq<Event>, cutoff: real, maxKeys: nat)
    requires UseOrdered(rest + [hit], events) && !Stale(hit, cutoff) && |rest| + 1 > maxKeys > 0
    ensures var all, kept := Fresh(rest + [hit], cutoff), Bounded(rest + [hit], cutoff, maxKeys);
      var cut := |all| - |kept|;
      && |kept| == (if |all| > maxKeys then maxKeys else |all|)
      && kept == all[cut..] && kept[|kept| - 1] == hit
      && forall i, j :: 0 <= i < cut <= j < |all| ==> LastUse(events, all[i].key) < LastUse(events, all[j].key)
  {
    hide LastUse, Fresh;
    FreshOrdered(rest + [hit], cutoff, events);
    FreshEnds(rest, hit, cutoff);
  }

  // -------------------------------------------------------- the unbounded limiter

  /** Every accepted hit of every key, never forgotten. */
  type Log = map<string, seq<real>>

  function LogOf(log: Log, key: string): seq<real> {
    if key in log then log[key] else []
  }

  function CountAfter(hits: seq<real>, cutoff: real): (n: nat)
    ensures n <= |hits|
  {
    if hits == [] then 0
    else CountAfter(hits[..|hits| - 1], cutoff) + (if hits[|hits| - 1] > cutoff then 1 else 0)
  }

  /** Reject when the window already holds `limit` accepted hits. */
  predicate SpecRefuses(c: Config, log: Log, e: Event) {
    CountAfter(LogOf(log, e.key), e.now - c.window(e.key)) >= c.limit(e.key)
  }

  function SpecNext(c: Config, log: Log, e: Event): Log {
    if SpecRefuses(c, log, e) then log else log[e.key := LogOf(log, e.key) + [e.now]]
  }

  function SpecRun(c: Config, events: seq<Event>): Log {
    if events == [] then map[] else SpecNext(c, SpecRun(c, events[..|events| - 1]), events[|events| - 1])
  }

  function Widest(c: Config, events: seq<Event>): real {
    if events == [] then 0.0
    else Max(Widest(c, events[..|events| - 1]), c.window(events[|events| - 1].key))
  }

  /** The keys with an accepted hit inside the widest window. */
  function LiveKeys(log: Log, cutoff: real): set<string> {
    set k | k in log && log[k] != [] && log[k][|log[k]| - 1] > cutoff
  }

  /** At no point of the run do more keys than the capacity have a hit in the widest window. */
  ghost predicate WithinCapacity(c: Config, events: seq<Event>) {
    events == [] ||
      (WithinCapacity(c, events[..|events| - 1]) &&
       |LiveKeys(SpecRun(c, events), events[|events| - 1].now - Widest(c, events))| <= c.maxKeys)
  }

  /** A deque that holds the whole log but some expired front of it. */
  ghost predicate Covers(hits: seq<real>, full: seq<real>, cutoff: real) {
    && |hits| <= |full| && hits == full[|full| - |hits|..]
    && forall i :: 0 <= i < |full| - |hits| ==> full[i] <= cutoff
  }

  ghost predicate KeyMatches(c: Config, es: seq<Entry>, log: Log, key: string, now: real, widest: real) {
    && TimesSorted(LogOf(log, key))
    && (LogOf(log, key) != [] ==> LogOf(log, key)[|LogOf(log, key)| - 1] <= now && c.window(key) <= widest)
    && Covers(Lookup(es, key), LogOf(log, key), now - c.window(key))
  }

  ghost predicate Matches(c: Config, es: seq<Entry>, log: Log, now: real, widest: real) {
    forall key :: KeyMatches(c, es, log, key, now, widest)
  }

  lemma MatchesAt(c: Config, es: seq<Entry>, log: Log, key: string, now: real, widest: real)
    requires Matches(c, es, log, now, widest)
    ensures KeyMatches(c, es, log, key, now, widest)
  {
  }

  lemma {:induction false} CountNone(hits: seq<real>, cutoff: real)
    requires forall i :: 0 <= i < |hits| ==> hits[i] <= cutoff
    ensures CountAfter(hits, cutoff) == 0
  {
    if hits != [] {
      CountNone(hits[..|hits| - 1], cutoff);
    }
  }

  lemma {:induction false} CountAll(hits: seq<real>, cutoff: real)
    requires forall i :: 0 <= i < |hits| ==> hits[i] > cutoff
    ensures CountAfter(hits, cutoff) == |hits|
  {
    if hits != [] {
      CountAll(hits[..|hits| - 1], cutoff);
    }
  }

  lemma {:induction false} CountAppend(a: seq<real>, b: seq<real>, cutoff: real)
    ensures CountAfter(a + b, cutoff) == CountAfter(a, cutoff) + CountAfter(b, cutoff)
  {
    if b == [] {
      assert a + b == a;
    } else {
      assert (a + b)[..|a + b| - 1] == a + b[..|b| - 1];
      CountAppend(a, b[..|b| - 1], cutoff);
    }
  }

  /** A covering deque whose expired hits are gone holds exactly what the specification counts. */
  lemma LiveCount(hits: seq<real>, full: seq<real>, cutoff: real)
    requires TimesSorted(full) && Covers(hits, full, cutoff) && (hits == [] || hits[0] > cutoff)
    ensures |hits| == CountAfter(full, cutoff)
  {
    var gone := full[..|full| - |hits|];
    assert full == gone + hits;
    hide CountAfter, TimesSorted, Covers;
    CountAppend(gone, hits, cutoff);
    LackIsExpired(hits, full, cutoff);
    CountNone(gone, cutoff);
    LiveTail(hits, full, cutoff);
    CountAll(hits, cutoff);
  }

  lemma LackIsExpired(hits: seq<real>, full: seq<real>, cutoff: real)
    requires Covers(hits, full, cutoff)
    ensures forall i :: 0 <= i < |full| - |hits| ==> full[i] <= cutoff
  {
  }

  lemma LiveTail(hits: seq<real>, full: seq<real>, cutoff: real)
    requires TimesSorted(full) && Covers(hits, full, cutoff) && (hits == [] || hits[0] > cutoff)
    ensures forall i :: 0 <= i < |hits| ==> hits[i] > cutoff
  {
    var cut := |full| - |hits|;
    forall i | 0 <= i < |hits| ensures hits[i] > cutoff {
      assert hits[i] == full[cut + i] && hits[0] == full[cut];
    }
  }

  lemma DropCovers(hits: seq<real>, full: seq<real>, cutoff: real)
    requires Covers(hits, full, cutoff) && hits != [] && hits[0] <= cutoff
    ensures Covers(hits[1..], full, cutoff)
  {
    var gone := |full| - |hits|;
    assert full[gone] == hits[0];
    assert full[gone + 1..] == full[gone..][1..];
  }

  /** Expiring a covering deque leaves exactly the hits the specification counts. */
  lemma {:induction false} ExpireCovers(hits: seq<real>, full: seq<real>, cutoff: real)
    requires TimesSorted(full) && Covers(hits, full, cutoff)
    ensures Covers(Expire(hits, cutoff), full, cutoff)
    ensures |Expire(hits, cutoff)| == CountAfter(full, cutoff)
  {
    hide CountAfter, Covers, TimesSorted;
    if hits != [] && hits[0] <= cutoff {
      DropCovers(hits, full, cutoff);
      ExpireCovers(hits[1..], full, cutoff);
      assert Expire(hits, cutoff) == Expire(hits[1..], cutoff);
    } else {
      LiveCount(hits, full, cutoff);
      assert Expire(hits, cutoff) == hits;
    }
  }

  // ------------------------------------------------------------- lookups of the table

  ghost predicate Distinct(es: seq<Entry>) {
    forall i, j :: 0 <= i < j < |es| ==> es[i].key != es[j].key
  }

  lemma {:induction false} LookupIs(es: seq<Entry>, e: Entry)
    requires Distinct(es) && e in es
    ensures Lookup(es, e.key) == e.hits
  {
    if es[0] != e {
      LookupIs(es[1..], e);
    }
  }

  lemma {:induction false} LookupAbsent(es: seq<Entry>, key: string)
    requires forall e :: e in es ==> e.key != key
    ensures Lookup(es, key) == []
  {
    if es != [] {
      assert es[0] in es;
      LookupAbsent(es[1..], key);
    }
  }

  lemma {:induction false} LookupWithoutPush(es: seq<Entry>, entry: Entry, key: string)
    ensures Lookup(Without(es, entry.key) + [entry], key) == if key == entry.key then entry.hits else Lookup(es, key)
  {
    if es == [] {
      assert Without(es, entry.key) + [entry] == [entry];
      assert [entry][1..] == [];
    } else {
      LookupWithoutPush(es[1..], entry, key);
      if es[0].key != entry.key {
        var tail := Without(es[1..], entry.key);
        assert ([es[0]] + tail) + [entry] == [es[0]] + (tail + [entry]);
        assert ([es[0]] + (tail + [entry]))[1..] == tail + [entry];
      }
    }
  }

  lemma {:induction false} LookupFresh(es: seq<Entry>, cutoff: real, key: string)
    requires Distinct(es)
    ensures Lookup(Fresh(es, cutoff), key)
         == if Stale(Entry(key, Lookup(es, key)), cutoff) then [] else Lookup(es, key)
  {
    if es != [] {
      LookupFresh(es[1..], cutoff, key);
      if es[0].key == key {
        forall e | e in es[1..] ensures e.key != key {
          var j :| 0 <= j < |es[1..]| && es[1..][j] == e;
          assert es[j + 1] == e;
        }
        LookupAbsent(Fresh(es[1..], cutoff), key);
      }
    }
  }

  lemma SweepMatchesKey(c: Config, es: seq<Entry>, log: Log, key: string, now: real, widest: real)
    requires Distinct(es) && KeyMatches(c, es, log, key, now, widest)
    ensures KeyMatches(c, Fresh(es, now - widest), log, key, now, widest)
  {
    hide TimesSorted, Lookup, Fresh, LogOf, Covers, Distinct;
    LookupFresh(es, now - widest, key);
    StaleCovers(Lookup(es, key), LogOf(log, key), now - widest, now - c.window(key));
  }

  /** A sweep never removes a hit that still counts. */
  lemma SweepMatches(c: Config, es: seq<Entry>, log: Log, now: real, widest: real)
    requires Distinct(es) && Matches(c, es, log, now, widest)
    ensures Matches(c, Fresh(es, now - widest), log, now, widest)
  {
    hide KeyMatches, Fresh, Distinct;
    var swept := Fresh(es, now - widest);
    forall key ensures KeyMatches(c, swept, log, key, now, widest) {
      SweepMatchesKey(c, es, log, key, now, widest);
    }
  }

  lemma StaleCovers(hits: seq<real>, full: seq<real>, wide: real, cutoff: real)
    requires TimesSorted(full) && Covers(hits, full, cutoff)
    requires full != [] ==> wide <= cutoff
    ensures hits == [] || hits[|hits| - 1] <= wide ==> Covers([], full, cutoff)
  {
    if hits != [] && hits[|hits| - 1] <= wide {
      assert full[|full| - 1] == hits[|hits| - 1];
    }
  }

  lemma LaterMatches(c: Config, es: seq<Entry>, log: Log, now: real, widest: real, later: real, wider: real)
    requires Matches(c, es, log, now, widest) && now <= later && widest <= wider
    ensures Matches(c, es, log, later, wider)
  {
    hide TimesSorted, Lookup;
    forall key ensures KeyMatches(c, es, log, key, later, wider) {
      assert KeyMatches(c, es, log, key, now, widest);
    }
  }

  // ------------------------------------------------------------------ the refinement

  lemma OrderedDistinct(es: seq<Entry>, events: seq<Event>)
    requires UseOrdered(es, events)
    ensures Distinct(es)
  {
    hide LastUse;
  }

  lemma PreparedMatches(c: Config, s: State, log: Log, now: real, e: Event)
    requires ValidConfig(c) && Distinct(s.entries) && Matches(c, s.entries, log, now, s.widest) && now <= e.now
    ensures var p := Prepared(s, c.window(e.key), e.now, c.sweepEvery);
      Matches(c, p.entries, log, e.now, p.widest)
  {
    hide Matches, SweepDue;
    var wider := Max(s.widest, c.window(e.key));
    LaterMatches(c, s.entries, log, now, s.widest, e.now, wider);
    SweepMatches(c, s.entries, log, e.now, wider);
  }

  /** One hit: the decision is the specification's. */
  lemma DecisionMatches(c: Config, s: State, log: Log, now: real, e: Event)
    requires ValidConfig(c) && Distinct(s.entries) && Matches(c, s.entries, log, now, s.widest) && now <= e.now
    ensures Refuses(c, s, e) <==> SpecRefuses(c, log, e)
    ensures Covers(Bucket(s, e.key, c.window(e.key), e.now, c.sweepEvery), LogOf(log, e.key), e.now - c.window(e.key))
  {
    hide Prepared, Lookup, Expire, CountAfter, Matches, Covers, TimesSorted, Distinct;
    PreparedMatches(c, s, log, now, e);
    var p := Prepared(s, c.window(e.key), e.now, c.sweepEvery);
    MatchesAt(c, p.entries, log, e.key, e.now, p.widest);
    ExpireCovers(Lookup(p.entries, e.key), LogOf(log, e.key), e.now - c.window(e.key));
  }

  /** The table after re-filing the hit key, before the capacity is enforced. */
  lemma RefiledMatches(c: Config, es: seq<Entry>, log: Log, next: Log, e: Event, hits: seq<real>, widest: real)
    requires Matches(c, es, log, e.now, widest)
    requires forall k :: k != e.key ==> LogOf(next, k) == LogOf(log, k)
    requires TimesSorted(LogOf(next, e.key)) && Covers(hits, LogOf(next, e.key), e.now - c.window(e.key))
    requires LogOf(next, e.key) != [] ==> LogOf(next, e.key)[|LogOf(next, e.key)| - 1] <= e.now
    requires c.window(e.key) <= widest
    ensures Matches(c, Without(es, e.key) + [Entry(e.key, hits)], next, e.now, widest)
  {
    hide TimesSorted, Lookup, LogOf, Covers, KeyMatches, Without;
    forall key ensures KeyMatches(c, Without(es, e.key) + [Entry(e.key, hits)], next, key, e.now, widest) {
      LookupWithoutPush(es, Entry(e.key, hits), key);
      if key == e.key {
        OwnKeyMatches(c, Without(es, e.key) + [Entry(e.key, hits)], next, key, e.now, widest);
      } else {
        SameKeyMatches(c, es, log, Without(es, e.key) + [Entry(e.key, hits)], next, key, e.now, widest);
      }
    }
  }

  lemma OwnKeyMatches(c: Config, es: seq<Entry>, log: Log, key: string, now: real, widest: real)
    requires TimesSorted(LogOf(log, key)) && Covers(Lookup(es, key), LogOf(log, key), now - c.window(key))
    requires LogOf(log, key) != [] ==> LogOf(log, key)[|LogOf(log, key)| - 1] <= now
    requires c.window(key) <= widest
    ensures KeyMatches(c, es, log, key, now, widest)
  {
    hide TimesSorted, Lookup, LogOf, Covers;
  }

  lemma SameKeyMatches(c: Config, es: seq<Entry>, log: Log, es': seq<Entry>, log': Log, key: string, now: real, widest: real)
    requires KeyMatches(c, es, log, key, now, widest)
    requires Lookup(es', key) == Lookup(es, key) && LogOf(log', key) == LogOf(log, key)
    ensures KeyMatches(c, es', log', key, now, widest)
  {
    hide TimesSorted, Lookup, LogOf, Covers;
  }

  lemma CoversPush(hits: seq<real>, full: seq<real>, cutoff: real, now: real)
    requires Covers(hits, full, cutoff) && TimesSorted(full) && (full != [] ==> full[|full| - 1] <= now)
    ensures Covers(hits + [now], full + [now], cutoff) && TimesSorted(full + [now])
  {
    hide TimesSorted;
    var all, cut := full + [now], |full| - |hits|;
    assert all[cut..] == full[cut..] + [now];
    PushSorted(full, now);
  }

  lemma PushSorted(full: seq<real>, now: real)
    requires TimesSorted(full) && (full != [] ==> full[|full| - 1] <= now)
    ensures TimesSorted(full + [now])
  {
    forall i | 0 <= i < |full| ensures full[i] <= now {
      assert full[i] <= full[|full| - 1];
    }
  }

  lemma FreshKeyIsLive(c: Config, es: seq<Entry>, log: Log, e: Entry, now: real, widest: real)
    requires Distinct(es) && e in es && KeyMatches(c, es, log, e.key, now, widest)
    requires !Stale(e, now - widest)
    ensures e.key in LiveKeys(log, now - widest)
  {
    hide TimesSorted, Lookup;
    LookupIs(es, e);
    var full := LogOf(log, e.key);
    assert full[|full| - 1] == e.hits[|e.hits| - 1];
  }

  /** Unswept entries all belong to live keys, so the capacity never has to evict one. */
  lemma FreshWithinCapacity(c: Config, es: seq<Entry>, log: Log, now: real, widest: real)
    requires Distinct(es) && Matches(c, es, log, now, widest)
    requires |LiveKeys(log, now - widest)| <= c.maxKeys
    ensures |Fresh(es, now - widest)| <= c.maxKeys
  {
    hide Fresh, Distinct, Stale, KeyMatches, LiveKeys;
    var live := Fresh(es, now - widest);
    FreshDistinct(es, now - widest);
    KeySetSize(live);
    var keys := set e | e in live :: e.key;
    forall k | k in keys ensures k in LiveKeys(log, now - widest) {
      var e :| e in live && e.key == k;
      FreshKeyIsLive(c, es, log, e, now, widest);
    }
    SubsetSize(keys, LiveKeys(log, now - widest));
  }

  lemma {:induction false} FreshDistinct(es: seq<Entry>, cutoff: real)
    requires Distinct(es)
    ensures Distinct(Fresh(es, cutoff))
  {
    if es != [] {
      FreshDistinct(es[1..], cutoff);
      var tail := Fresh(es[1..], cutoff);
      forall j | 0 <= j < |tail| ensures es[0].key != tail[j].key {
        assert tail[j] in tail;
      }
    }
  }

  lemma {:induction false} KeySetSize(es: seq<Entry>)
    requires Distinct(es)
    ensures |set e | e in es :: e.key| == |es|
  {
    var keys := set e | e in es :: e.key;
    if es == [] {
      assert keys == {};
    } else {
      var rest := set e | e in es[1..] :: e.key;
      KeySetSize(es[1..]);
      assert keys == rest + {es[0].key};
      assert es[0].key !in rest;
    }
  }

  lemma SubsetSize<T>(a: set<T>, b: set<T>)
    requires a <= b
    ensures |a| <= |b|
  {
    assert b == a + (b - a);
  }

  lemma FiledMatches(c: Config, s: State, log: Log, now: real, e: Event)
    requires ValidConfig(c) && Distinct(s.entries) && Matches(c, s.entries, log, now, s.widest) && now <= e.now
    ensures Matches(c, Filed(c, s, e), SpecNext(c, log, e), e.now,
                    Prepared(s, c.window(e.key), e.now, c.sweepEvery).widest)
  {
    hide Prepared, Lookup, Without, Covers, TimesSorted, Matches, Distinct, LogOf, Bucket, Refuses, SpecNext, SpecRefuses;
    var p := Prepared(s, c.window(e.key), e.now, c.sweepEvery);
    PreparedMatches(c, s, log, now, e);
    DecisionMatches(c, s, log, now, e);
    MatchesAt(c, p.entries, log, e.key, e.now, p.widest);
    var bucket := Bucket(s, e.key, c.window(e.key), e.now, c.sweepEvery);
    SpecNextLogs(c, log, e);
    CoversPush(bucket, LogOf(log, e.key), e.now - c.window(e.key), e.now);
    RefiledMatches(c, p.entries, log, SpecNext(c, log, e), e,
                   if Refuses(c, s, e) then bucket else bucket + [e.now], p.widest);
  }

  /** One hit keeps the correspondence, as long as the live keys fit. */
  lemma HitMatches(c: Config, s: State, log: Log, now: real, e: Event)
    requires ValidConfig(c) && Distinct(s.entries) && Matches(c, s.entries, log, now, s.widest) && now <= e.now
    requires Distinct(Filed(c, s, e))
    requires |LiveKeys(SpecNext(c, log, e), e.now - Prepared(s, c.window(e.key), e.now, c.sweepEvery).widest)| <= c.maxKeys
    ensures Matches(c, Next(c, s, e).entries, SpecNext(c, log, e), e.now, Next(c, s, e).widest)
  {
    hide Prepared, Fresh, Without, LiveKeys, Matches, Distinct, Bucket, Next, Refuses, SpecNext;
    NextEntries(c, s, e);
    FiledMatches(c, s, log, now, e);
    var widest := Prepared(s, c.window(e.key), e.now, c.sweepEvery).widest;
    SweepMatches(c, Filed(c, s, e), SpecNext(c, log, e), e.now, widest);
    FreshWithinCapacity(c, Filed(c, s, e), SpecNext(c, log, e), e.now, widest);
  }

  lemma SpecNextLogs(c: Config, log: Log, e: Event)
    ensures var next := SpecNext(c, log, e);
      && (forall k :: k != e.key ==> LogOf(next, k) == LogOf(log, k))
      && LogOf(next, e.key) == if SpecRefuses(c, log, e) then LogOf(log, e.key) else LogOf(log, e.key) + [e.now]
  {
    hide SpecRefuses;
  }

  lemma FiledDistinct(c: Config, s: State, events: seq<Event>, e: Event)
    requires ValidConfig(c) && Healthy(c, s, events)
    requires (events != [] ==> LastTime(events) <= e.now) && (events == [] ==> s.entries == [])
    ensures Distinct(Filed(c, s, e))
  {
    hide LastUse, UseOrdered, Prepared, Bucket, Refuses, Without;
    PreparedHealthy(c, s, events, e);
    var es := Prepared(s, c.window(e.key), e.now, c.sweepEvery).entries;
    var rest := Without(es, e.key);
    WithoutOrdered(es, e.key, events);
    OrderedDistinct(rest, events);
    forall i | 0 <= i < |rest| ensures rest[i].key != e.key {
      assert rest[i] in rest;
    }
  }

  lemma {:induction false} RunMatches(c: Config, events: seq<Event>)
    requires ValidConfig(c) && Monotone(events) && WithinCapacity(c, events)
    ensures Matches(c, Run(c, events).entries, SpecRun(c, events), LastTime(events), Run(c, events).widest)
    ensures Run(c, events).widest == Widest(c, events)
  {
    hide LastUse, SpecNext, Healthy, Matches, LiveKeys, Bounded, Rejects, Without, Distinct, Filed, Next, Prepared, Max;
    if events == [] {
      NothingMatches(c);
    } else {
      var n := |events| - 1;
      var past, e := events[..n], events[n];
      var s := Run(c, past);
      RunMatches(c, past);
      NextEntries(c, s, e);
      ReachableHealthy(c, past);
      ReachableDistinct(c, past);
      assert n > 0 ==> LastTime(past) == events[n - 1].now;
      FiledDistinct(c, s, past, e);
      if n == 0 {
        NothingMatches(c);
        RestartMatches(c, e.now);
        HitMatches(c, s, map[], e.now, e);
      } else {
        HitMatches(c, s, SpecRun(c, past), LastTime(past), e);
      }
    }
  }

  lemma NothingMatches(c: Config)
    ensures Matches(c, [], map[], 0.0, 0.0)
  {
    forall key ensures KeyMatches(c, [], map[], key, 0.0, 0.0) {
    }
  }

  lemma RestartMatches(c: Config, now: real)
    ensures Matches(c, [], map[], now, 0.0)
  {
    forall key ensures KeyMatches(c, [], map[], key, now, 0.0) {
    }
  }

  lemma ReachableDistinct(c: Config, events: seq<Event>)
    requires ValidConfig(c) && Monotone(events)
    ensures Distinct(Run(c, events).entries)
  {
    hide LastUse, Run;
    ReachableHealthy(c, events);
    OrderedDistinct(Run(c, events).entries, events);
  }

  /**
   The bounded limiter decides every hit as the unbounded one does, as long as the keys
   with a hit inside the widest window fit the capacity. Sweeps are unobservable: their
   period does not occur on the right-hand side.
   */
  lemma BoundedRefinesUnbounded(c: Config, events: seq<Event>, e: Event)
    requires ValidConfig(c) && Monotone(events + [e]) && WithinCapacity(c, events)
    ensures Refuses(c, Run(c, events), e) <==> SpecRefuses(c, SpecRun(c, events), e)
  {
    hide Run, SpecRun, LastUse, Refuses, SpecRefuses, Matches;
    var all := events + [e];
    assert forall i :: 0 <= i < |events| ==> all[i] == events[i];
    RunMatches(c, events);
    ReachableDistinct(c, events);
    if events == [] {
      assert Run(c, []) == State([], 0.0, 0) && SpecRun(c, []) == map[] by {
        EmptyRuns(c);
      }
      RestartMatches(c, e.now);
      DecisionMatches(c, Run(c, events), SpecRun(c, events), e.now, e);
    } else {
      assert all[|events| - 1].now <= all[|events|].now;
      DecisionMatches(c, Run(c, events), SpecRun(c, events), LastTime(events), e);
    }
  }

  lemma EmptyRuns(c: Config)
    requires c.sweepEvery > 0
    ensures Run(c, []) == State([], 0.0, 0) && SpecRun(c, []) == map[]
  {
  }

  // ------------------------------------------------------- past the capacity: fail open

  /** With room for one key, a hit of a second key makes the limiter forget the first one's. */
  lemma EvictionFailsOpen(c: Config, first: string, second: string)
    requires c.maxKeys == 1 && c.sweepEvery == 512 && first != second
    requires c.limit(first) == c.limit(second) == 1 && c.window(first) == c.window(second) == 60.0
    ensures var events, again := [Event(first, 0.0), Event(second, 1.0)], Event(first, 2.0);
      !Refuses(c, Run(c, events), again) && SpecRefuses(c, SpecRun(c, events), again)
  {
    hide Run, Next, SpecNext, SpecRun, CountAfter, Refuses;
    var a, b := Event(first, 0.0), Event(second, 1.0);
    RunPair(c, a, b);
    FirstHit(c, a);
    OvertakingHit(c, State([Entry(first, [0.0])], 60.0, 1), Entry(first, [0.0]), Entry(second, [1.0]));
    ForgottenHit(c, Run(c, [a, b]), Event(first, 2.0));
    SpecPair(c, a, b);
    CountAll([0.0], 2.0 - 60.0);
  }

  lemma RunPair(c: Config, a: Event, b: Event)
    requires c.sweepEvery > 0
    ensures Run(c, [a, b]) == Next(c, Next(c, State([], 0.0, 0), a), b)
  {
    hide Next;
    assert [a][..0] == [] && [a, b][..1] == [a];
    assert Run(c, [a]) == Next(c, Run(c, [a][..0]), a);
  }

  lemma SpecPair(c: Config, a: Event, b: Event)
    requires c.limit(a.key) > 0 && a.key != b.key
    ensures LogOf(SpecRun(c, [a, b]), a.key) == [a.now]
  {
    assert [a][..0] == [] && [a, b][..1] == [a] && [] + [a.now] == [a.now];
    SpecNextLogs(c, map[], a);
    SpecNextLogs(c, SpecRun(c, [a]), b);
    hide SpecNext;
    assert SpecRun(c, [a]) == SpecNext(c, SpecRun(c, [a][..0]), a);
    assert LogOf(SpecRun(c, [a]), a.key) == [a.now];
    assert SpecRun(c, [a, b]) == SpecNext(c, SpecRun(c, [a, b][..1]), b);
  }

  lemma ForgottenHit(c: Config, s: State, e: Event)
    requires c.sweepEvery == 512 && c.limit(e.key) > 0 && s.ops == 2 && |s.entries| == 1 && s.entries[0].key != e.key
    ensures !Refuses(c, s, e)
  {
    assert s.entries[1..] == [];
  }

  lemma FirstHit(c: Config, e: Event)
    requires c.maxKeys == 1 && c.sweepEvery == 512 && c.limit(e.key) == 1 && c.window(e.key) == 60.0
    ensures Next(c, State([], 0.0, 0), e) == State([Entry(e.key, [e.now])], 60.0, 1)
  {
    assert [] + [e.now] == [e.now];
    assert [] + [Entry(e.key, [e.now])] == [Entry(e.key, [e.now])];
  }

  lemma OvertakingHit(c: Config, s: State, first: Entry, hit: Entry)
    requires c.maxKeys == 1 && c.sweepEvery == 512 && c.limit(hit.key) == 1 && c.window(hit.key) == 60.0
    requires s == State([first], 60.0, 1) && first.hits == [0.0] && hit.hits == [1.0] && first.key != hit.key
    ensures Next(c, s, Event(hit.key, 1.0)) == State([hit], 60.0, 2)
  {
    hide After, Bucket, Prepared, Without, Bounded, Lookup;
    NoBucket(s, first, hit.key);
    AfterAccepted(s, hit.key, 1, 60.0, 1.0, 512, 1, State([first], 60.0, 2));
    assert [first] + [hit] == [first, hit];
    OlderDropped(first, hit);
  }

  lemma AfterAccepted(s: State, key: string, limit: nat, window: real, now: real, sweepEvery: nat, maxKeys: nat, p: State)
    requires sweepEvery > 0 && limit > 0
    requires Prepared(s, window, now, sweepEvery) == p && Bucket(s, key, window, now, sweepEvery) == []
    ensures After(s, key, limit, window, now, sweepEvery, maxKeys)
      == p.(entries := Bounded(Without(p.entries, key) + [Entry(key, [now])], now - p.widest, maxKeys))
  {
    hide Bucket, Prepared, Without, Bounded;
    assert [] + [now] == [now];
  }

  lemma NoBucket(s: State, first: Entry, key: string)
    requires s == State([first], 60.0, 1) && first.key != key
    ensures Bucket(s, key, 60.0, 1.0, 512) == [] && Without([first], key) == [first]
    ensures Prepared(s, 60.0, 1.0, 512) == State([first], 60.0, 2)
  {
    assert [first][1..] == [];
    assert Prepared(s, 60.0, 1.0, 512) == State([first], 60.0, 2);
    hide Prepared;
    assert Lookup([first], key) == [];
  }

  lemma OlderDropped(first: Entry, hit: Entry)
    requires first.hits == [0.0] && hit.hits == [1.0]
    ensures Bounded([first, hit], 1.0 - 60.0, 1) == [hit]
  {
    assert [first, hit][1..] == [hit] && [hit][1..] == [];
    assert Fresh([hit], 1.0 - 60.0) == [hit];
    assert Fresh([first, hit], 1.0 - 60.0) == [first, hit];
  }

  /** Every sweepEvery-th hit leaves no other key whose last hit is older than the widest window seen. */
  lemma SweptOnSchedule(s: State, key: string, limit: nat, window: real, now: real, sweepEvery: nat, maxKeys: nat, e: Entry)
    requires sweepEvery > 0 && (s.ops + 1) % sweepEvery == 0
    requires e in After(s, key, limit, window, now, sweepEvery, maxKeys).entries && e.key != key
    ensures e.hits != [] && e.hits[|e.hits| - 1] > now - (if s.widest >= window then s.widest else window)
    ensures e in s.entries
  {
    var p := Prepared(s, window, now, sweepEvery);
    var bucket := Bucket(s, key, window, now, sweepEvery);
    var all := Without(p.entries, key) + [Entry(key, if |bucket| >= limit then bucket else bucket + [now])];
    BoundedPart(all, now - p.widest, maxKeys, e);
    hide Bucket;
  }

  lemma BoundedPart(es: seq<Entry>, cutoff: real, maxKeys: nat, e: Entry)
    ensures e in Bounded(es, cutoff, maxKeys) ==> e in es
  {
  }

  /** Every hit is counted, and the widest window seen never shrinks. */
  lemma HitsCounted(s: State, key: string, limit: nat, window: real, now: real, sweepEvery: nat, maxKeys: nat)
    requires sweepEvery > 0
    ensures var t := After(s, key, limit, window, now, sweepEvery, maxKeys);
      t.ops == s.ops + 1 && t.widest >= window && t.widest >= s.widest && (t.widest == window || t.widest == s.widest)
  {
    hide Bucket, Bounded;
  }
}
