/**
 What the bounded limiter decides once eviction is possible. "Unexpired" hits are those the
 limiter itself accepted within the window; a decision is correct when it refuses exactly the
 hits that find `limit` of them.
 */
module Eviction {
  import opened RateLimiter

  /** The hits of one key that the limiter accepts, oldest first. */
  function Accepted(c: Config, events: seq<Event>, key: string): (r: seq<real>)
    requires c.sweepEvery > 0
  {
    if events == [] then []
    else
      var past, e := events[..|events| - 1], events[|events| - 1];
      Accepted(c, past, key) + if e.key == key && !Refuses(c, Run(c, past), e) then [e.now] else []
  }

  /** The deque of a key. */
  function Held(c: Config, events: seq<Event>, key: string): seq<real>
    requires c.sweepEvery > 0
  {
    Lookup(Run(c, events).entries, key)
  }

  /** The accepted hits still inside the window, and those of them that the deque holds. */
  function Unexpired(c: Config, events: seq<Event>, key: string, now: real): nat
    requires c.sweepEvery > 0
  {
    CountAfter(Accepted(c, events, key), now - c.window(key))
  }

  function Known(c: Config, events: seq<Event>, key: string, now: real): nat
    requires c.sweepEvery > 0
  {
    CountAfter(Held(c, events, key), now - c.window(key))
  }

  ghost predicate Correct(c: Config, events: seq<Event>, e: Event)
    requires c.sweepEvery > 0
  {
    Refuses(c, Run(c, events), e) <==> Unexpired(c, events, e.key, e.now) >= c.limit(e.key)
  }

  // ------------------------------------------------------------- suffixes and counts

  ghost predicate Suffix(hits: seq<real>, full: seq<real>) {
    |hits| <= |full| && hits == full[|full| - |hits|..]
  }

  lemma {:induction false} CountZero(hits: seq<real>, cutoff: real)
    ensures CountAfter(hits, cutoff) == 0 <==> forall i | 0 <= i < |hits| :: hits[i] <= cutoff
  {
    if hits != [] {
      var n := |hits| - 1;
      CountZero(hits[..n], cutoff);
      assert forall i | 0 <= i < n :: hits[..n][i] == hits[i];
    }
  }

  /** Of a deque that is the end of the log, the log has at least as many unexpired hits, and as
      many exactly when the deque lacks expired ones only. */
  lemma SuffixCount(hits: seq<real>, full: seq<real>, cutoff: real)
    requires Suffix(hits, full)
    ensures CountAfter(hits, cutoff) <= CountAfter(full, cutoff)
    ensures Covers(hits, full, cutoff) <==> CountAfter(hits, cutoff) == CountAfter(full, cutoff)
  {
    hide CountAfter;
    var gone := full[..|full| - |hits|];
    assert full == gone + hits;
    CountAppend(gone, hits, cutoff);
    CountZero(gone, cutoff);
  }

  lemma CoversLater(hits: seq<real>, full: seq<real>, cutoff: real, later: real)
    requires Covers(hits, full, cutoff) && cutoff <= later
    ensures Covers(hits, full, later)
  {
  }

  lemma SuffixSorted(hits: seq<real>, full: seq<real>)
    requires Suffix(hits, full) && TimesSorted(full)
    ensures TimesSorted(hits)
  {
  }

  /** Once a hit in the deque has expired, so has everything it lacks. */
  lemma LackExpires(hits: seq<real>, full: seq<real>, cutoff: real, later: real)
    requires Suffix(hits, full) && TimesSorted(full) && cutoff <= later
    requires CountAfter(hits, later) < CountAfter(hits, cutoff)
    ensures Covers(hits, full, later)
  {
    if forall i | 0 <= i < |hits| :: hits[i] > later {
      CountAll(hits, later);
    } else {
      var i :| 0 <= i < |hits| && hits[i] <= later;
      var gone := |full| - |hits|;
      forall j | 0 <= j < gone ensures full[j] <= later {
        assert full[j] <= full[gone + i];
      }
    }
  }

  // ------------------------------------------------------------- one hit

  lemma Snoc(c: Config, events: seq<Event>, e: Event, key: string)
    requires c.sweepEvery > 0
    ensures Run(c, events + [e]) == Next(c, Run(c, events), e)
    ensures Accepted(c, events + [e], key)
      == Accepted(c, events, key) + if e.key == key && !Refuses(c, Run(c, events), e) then [e.now] else []
  {
    hide Next, Refuses;
    assert (events + [e])[..|events|] == events;
  }

  /** A healthy state and the hit that meets it. */
  ghost predicate Meets(c: Config, s: State, events: seq<Event>, e: Event) {
    && ValidConfig(c) && Healthy(c, s, events)
    && (events != [] ==> LastTime(events) <= e.now) && (events == [] ==> s.entries == [])
  }

  lemma RunMeets(c: Config, events: seq<Event>, e: Event)
    requires ValidConfig(c) && Monotone(events + [e])
    ensures Monotone(events) && Meets(c, Run(c, events), events, e)
    ensures events != [] ==> LastTime(events) <= e.now
  {
    hide Healthy, Next;
    var all := events + [e];
    assert forall i | 0 <= i < |events| :: all[i] == events[i];
    ReachableHealthy(c, events);
    if events != [] {
      assert all[|events| - 1].now <= all[|events|].now;
    }
  }

  lemma LookupGood(c: Config, s: State, events: seq<Event>, key: string)
    requires Healthy(c, s, events)
    ensures Distinct(s.entries)
    ensures Lookup(s.entries, key) != [] ==> GoodDeque(Lookup(s.entries, key), LastTime(events))
    ensures TimesSorted(Lookup(s.entries, key))
  {
    hide GoodDeque, UseOrdered, Lookup, LastUse;
    OrderedDistinct(s.entries, events);
    var hits := Lookup(s.entries, key);
    if hits != [] {
      assert GoodDeque(Entry(key, hits).hits, LastTime(events));
      GoodSorted(hits, LastTime(events));
    }
  }

  lemma GoodSorted(hits: seq<real>, now: real)
    requires GoodDeque(hits, now)
    ensures TimesSorted(hits)
  {
  }

  /** The deque of the hit key after expiry: as long as the unexpired hits it held before. */
  lemma BucketCount(c: Config, s: State, events: seq<Event>, e: Event)
    requires Meets(c, s, events, e)
    ensures var bucket, cutoff := Bucket(s, e.key, c.window(e.key), e.now, c.sweepEvery), e.now - c.window(e.key);
      |bucket| == CountAfter(bucket, cutoff) == CountAfter(Lookup(s.entries, e.key), cutoff)
  {
    hide Healthy, Lookup, Bucket, CountAfter, TimesSorted, Distinct;
    LookupGood(c, s, events, e.key);
    BucketIs(s, e.key, c.window(e.key), e.now, c.sweepEvery);
  }

  lemma BucketIs(s: State, key: string, window: real, now: real, sweepEvery: nat)
    requires Distinct(s.entries) && sweepEvery > 0 && TimesSorted(Lookup(s.entries, key))
    ensures var bucket := Bucket(s, key, window, now, sweepEvery);
      |bucket| == CountAfter(bucket, now - window) == CountAfter(Lookup(s.entries, key), now - window)
  {
    hide Lookup, Prepared, Expire, CountAfter, TimesSorted, Distinct;
    SweptLookup(s, key, window, now, sweepEvery);
    FoundCount(Lookup(s.entries, key), Lookup(Prepared(s, window, now, sweepEvery).entries, key), now - window);
  }

  lemma FoundCount(hits: seq<real>, found: seq<real>, cutoff: real)
    requires TimesSorted(hits)
    requires found == hits || (found == [] && CountAfter(hits, cutoff) == 0)
    ensures |Expire(found, cutoff)| == CountAfter(Expire(found, cutoff), cutoff) == CountAfter(hits, cutoff)
  {
    hide Expire, CountAfter, TimesSorted;
    if found == hits {
      ExpiredCount(hits, cutoff);
    } else {
      NothingExpires(cutoff);
    }
  }

  lemma SweptLookup(s: State, key: string, window: real, now: real, sweepEvery: nat)
    requires Distinct(s.entries) && sweepEvery > 0 && TimesSorted(Lookup(s.entries, key))
    ensures var hits, found := Lookup(s.entries, key), Lookup(Prepared(s, window, now, sweepEvery).entries, key);
      found == hits || (found == [] && CountAfter(hits, now - window) == 0)
  {
    hide Lookup, Fresh, CountAfter, SweepDue, TimesSorted;
    LookupFresh(s.entries, now - Max(s.widest, window), key);
    StaleCount(Lookup(s.entries, key), now - Max(s.widest, window), now - window);
  }

  lemma NothingExpires(cutoff: real)
    ensures Expire([], cutoff) == [] && CountAfter([], cutoff) == 0
  {
  }

  lemma StaleCount(hits: seq<real>, wide: real, cutoff: real)
    requires TimesSorted(hits) && wide <= cutoff
    ensures hits == [] || hits[|hits| - 1] <= wide ==> CountAfter(hits, cutoff) == 0
  {
    CountZero(hits, cutoff);
  }

  lemma ExpiredCount(hits: seq<real>, cutoff: real)
    requires TimesSorted(hits)
    ensures |Expire(hits, cutoff)| == CountAfter(Expire(hits, cutoff), cutoff) == CountAfter(hits, cutoff)
  {
    hide CountAfter, Expire;
    assert hits[0..] == hits;
    ExpireCovers(hits, hits, cutoff);
    SuffixCount(Expire(hits, cutoff), hits, cutoff);
  }

  /** The hit key is never evicted by its own hit. */
  lemma HitKeyStays(c: Config, s: State, events: seq<Event>, e: Event)
    requires Meets(c, s, events, e)
    ensures var bucket := Bucket(s, e.key, c.window(e.key), e.now, c.sweepEvery);
      Lookup(Next(c, s, e).entries, e.key) == if Refuses(c, s, e) then bucket else bucket + [e.now]
  {
    hide Healthy, Lookup, Fresh, Without, Prepared, Bucket, Refuses, UseOrdered, Bounded, Next, GoodDeques, Distinct;
    NextEntries(c, s, e);
    FiledHealthy(c, s, events, e);
    FiledDistinct(c, s, events, e);
    var f := Filed(c, s, e);
    var hit := f[|f| - 1];
    LookupIs(f, hit);
    if !Refuses(c, s, e) {
      var p := Prepared(s, c.window(e.key), e.now, c.sweepEvery);
      LastStays(c, f[..|f| - 1], hit, events + [e], e.now, e.now - p.widest);
    }
  }

  lemma LastStays(c: Config, rest: seq<Entry>, hit: Entry, events: seq<Event>, now: real, cutoff: real)
    requires ValidConfig(c) && UseOrdered(rest + [hit], events) && GoodDeques(rest + [hit], now)
    requires hit.hits != [] && hit.hits[|hit.hits| - 1] > cutoff
    ensures Lookup(Bounded(rest + [hit], cutoff, c.maxKeys), hit.key) == hit.hits
  {
    hide UseOrdered, GoodDeques, Bounded, Lookup, Distinct;
    BoundedHealthy(c, rest, hit, events, now, cutoff);
    var r := Bounded(rest + [hit], cutoff, c.maxKeys);
    OrderedDistinct(r, events);
    LookupIs(r, hit);
  }

  /** What a hit does to its own key's counts: a refusal changes nothing, an acceptance adds one. */
  lemma OwnHit(c: Config, events: seq<Event>, e: Event)
    requires ValidConfig(c) && Monotone(events + [e])
    ensures Refuses(c, Run(c, events), e) <==> Known(c, events, e.key, e.now) >= c.limit(e.key)
    ensures var one := if Refuses(c, Run(c, events), e) then 0 else 1;
      && Known(c, events + [e], e.key, e.now) == Known(c, events, e.key, e.now) + one
      && Unexpired(c, events + [e], e.key, e.now) == Unexpired(c, events, e.key, e.now) + one
  {
    hide Run, Healthy, Lookup, Bucket, Next, Monotone, CountAfter, Accepted;
    var s, cutoff := Run(c, events), e.now - c.window(e.key);
    RunMeets(c, events, e);
    Snoc(c, events, e, e.key);
    BucketCount(c, s, events, e);
    HitKeyStays(c, s, events, e);
    CountOneMore(Bucket(s, e.key, c.window(e.key), e.now, c.sweepEvery), e.now, cutoff);
    CountOneMore(Accepted(c, events, e.key), e.now, cutoff);
    assert Accepted(c, events, e.key) + [] == Accepted(c, events, e.key);
  }

  lemma CountOneMore(hits: seq<real>, now: real, cutoff: real)
    requires now > cutoff
    ensures CountAfter(hits + [now], cutoff) == CountAfter(hits, cutoff) + 1
  {
    assert (hits + [now])[..|hits|] == hits;
  }

  /** What the hit of another key can do to a key's deque: nothing, or drop all of it. */
  lemma LookupSuffix(es: seq<Entry>, k: nat, key: string)
    requires Distinct(es) && k <= |es|
    ensures Lookup(es[k..], key) == Lookup(es, key)
      || (Lookup(es[k..], key) == [] && exists i :: 0 <= i < k && es[i] == Entry(key, Lookup(es, key)))
  {
    hide Lookup;
    if i :| k <= i < |es| && es[i].key == key {
      assert es[i] == es[k..][i - k];
      LookupIs(es, es[i]);
      LookupIs(es[k..], es[i]);
    } else {
      LookupAbsent(es[k..], key);
      if i :| 0 <= i < k && es[i].key == key {
        LookupIs(es, es[i]);
        assert es[i] == Entry(key, Lookup(es, key));
      } else {
        LookupAbsent(es, key);
      }
    }
  }

  /** The capacity drops the entry of a key: what the sweep left has `maxKeys` keys used since. */
  ghost predicate PushedOut(c: Config, s: State, e: Event, key: string, hits: seq<real>)
    requires c.sweepEvery > 0
  {
    var live := Fresh(Filed(c, s, e), e.now - Prepared(s, c.window(e.key), e.now, c.sweepEvery).widest);
    exists i :: 0 <= i && i + c.maxKeys < |live| && live[i] == Entry(key, hits)
  }

  lemma BoundedLookup(es: seq<Entry>, cutoff: real, maxKeys: nat, key: string)
    requires Distinct(es)
    ensures var live, hits := Fresh(es, cutoff), Lookup(es, key);
      || Lookup(Bounded(es, cutoff, maxKeys), key) == hits
      || (Lookup(Bounded(es, cutoff, maxKeys), key) == [] && (
           || hits == [] || hits[|hits| - 1] <= cutoff
           || exists i :: 0 <= i && i + maxKeys < |live| && live[i] == Entry(key, hits)))
  {
    hide Lookup, Fresh, Distinct;
    if |es| > maxKeys {
      LookupFresh(es, cutoff, key);
      FreshDistinct(es, cutoff);
      var live := Fresh(es, cutoff);
      if |live| > maxKeys {
        LookupSuffix(live, |live| - maxKeys, key);
      }
    }
  }

  lemma FiledLookup(c: Config, s: State, e: Event, key: string)
    requires c.sweepEvery > 0 && Distinct(s.entries) && key != e.key
    ensures var hits, found := Lookup(s.entries, key), Lookup(Filed(c, s, e), key);
      found == hits
      || (found == [] && hits[|hits| - 1] <= e.now - Prepared(s, c.window(e.key), e.now, c.sweepEvery).widest)
  {
    hide Lookup, Prepared, Without, Bucket, Refuses, Distinct;
    PreparedLookup(s, key, c.window(e.key), e.now, c.sweepEvery);
    var p, f := Prepared(s, c.window(e.key), e.now, c.sweepEvery), Filed(c, s, e);
    LookupWithoutPush(p.entries, f[|f| - 1], key);
  }

  lemma PreparedLookup(s: State, key: string, window: real, now: real, sweepEvery: nat)
    requires Distinct(s.entries) && sweepEvery > 0
    ensures var p, hits := Prepared(s, window, now, sweepEvery), Lookup(s.entries, key);
      Lookup(p.entries, key) == hits
      || (Lookup(p.entries, key) == [] && hits != [] && hits[|hits| - 1] <= now - p.widest)
  {
    hide Lookup, Fresh, SweepDue, Max;
    LookupFresh(s.entries, now - Max(s.widest, window), key);
  }

  lemma OtherHit(c: Config, s: State, events: seq<Event>, e: Event, key: string)
    requires Meets(c, s, events, e) && key != e.key
    ensures var hits, after := Lookup(s.entries, key), Next(c, s, e);
      || Lookup(after.entries, key) == hits
      || (Lookup(after.entries, key) == [] && (
           || hits == [] || hits[|hits| - 1] <= e.now - after.widest
           || PushedOut(c, s, e, key, hits)))
  {
    hide Healthy, Lookup, Fresh, Filed, Prepared, Refuses, Bounded, Next, Distinct;
    LookupGood(c, s, events, key);
    NextEntries(c, s, e);
    FiledDistinct(c, s, events, e);
    FiledLookup(c, s, e, key);
    BoundedLookup(Filed(c, s, e), e.now - Prepared(s, c.window(e.key), e.now, c.sweepEvery).widest, c.maxKeys, key);
  }

  // ------------------------------------------------------------- over a run

  /** The deque of a key is always the end of what was accepted. */
  ghost predicate Tracked(c: Config, events: seq<Event>, key: string)
    requires c.sweepEvery > 0
  {
    var full := Accepted(c, events, key);
    && Suffix(Held(c, events, key), full) && TimesSorted(full)
    && (full != [] ==> events != [] && full[|full| - 1] <= LastTime(events) && c.window(key) <= Run(c, events).widest)
  }

  lemma {:induction false} RunTracked(c: Config, events: seq<Event>, key: string)
    requires ValidConfig(c) && Monotone(events)
    ensures Tracked(c, events, key)
  {
    hide Run, Tracked, Accepted, Next, Lookup, Healthy, Refuses, Monotone, GoodDeque;
    if events == [] {
      NothingTracked(c, key);
    } else {
      var past, e := events[..|events| - 1], events[|events| - 1];
      assert past + [e] == events;
      RunMeets(c, past, e);
      RunTracked(c, past, key);
      StepTracked(c, past, e, key);
    }
  }

  lemma NothingTracked(c: Config, key: string)
    requires c.sweepEvery > 0
    ensures Tracked(c, [], key)
  {
  }

  lemma StepTracked(c: Config, events: seq<Event>, e: Event, key: string)
    requires ValidConfig(c) && Meets(c, Run(c, events), events, e) && Tracked(c, events, key)
    ensures Tracked(c, events + [e], key)
  {
    hide Run, Accepted, Next, Lookup, Healthy, Refuses, Bucket, PushedOut, TimesSorted, Prepared, Suffix;
    var s, full := Run(c, events), Accepted(c, events, key);
    Snoc(c, events, e, key);
    NextEntries(c, s, e);
    assert full + [] == full;
    if key == e.key {
      StepSuffix(c, s, events, e, full);
      if full == [] || full[|full| - 1] <= e.now {
        PushSorted(full, e.now);
      }
    } else {
      OtherHit(c, s, events, e, key);
      NothingSuffix(full);
    }
  }

  lemma StepSuffix(c: Config, s: State, events: seq<Event>, e: Event, full: seq<real>)
    requires Meets(c, s, events, e) && Suffix(Lookup(s.entries, e.key), full)
    ensures Suffix(Lookup(Next(c, s, e).entries, e.key), full + if Refuses(c, s, e) then [] else [e.now])
  {
    hide Next, Lookup, Healthy, Refuses, Bucket, TimesSorted, Suffix, Distinct;
    LookupGood(c, s, events, e.key);
    HitKeyStays(c, s, events, e);
    BucketSuffix(s, e.key, c.window(e.key), e.now, c.sweepEvery, full);
    SuffixPush(Bucket(s, e.key, c.window(e.key), e.now, c.sweepEvery), full, e.now);
    assert full + [] == full;
  }

  lemma NothingSuffix(full: seq<real>)
    ensures Suffix([], full)
  {
  }

  lemma SuffixPush(hits: seq<real>, full: seq<real>, now: real)
    requires Suffix(hits, full)
    ensures Suffix(hits + [now], full + [now])
  {
    var cut := |full| - |hits|;
    assert (full + [now])[cut..] == full[cut..] + [now];
  }

  lemma SuffixOf(a: seq<real>, b: seq<real>, full: seq<real>)
    requires Suffix(b, full) && |a| <= |b| && a == b[|b| - |a|..]
    ensures Suffix(a, full)
  {
  }

  lemma BucketSuffix(s: State, key: string, window: real, now: real, sweepEvery: nat, full: seq<real>)
    requires sweepEvery > 0 && Distinct(s.entries) && TimesSorted(Lookup(s.entries, key))
    requires Suffix(Lookup(s.entries, key), full)
    ensures Suffix(Bucket(s, key, window, now, sweepEvery), full)
  {
    hide Lookup, Prepared, Expire, CountAfter, TimesSorted, Distinct, Suffix;
    SweptLookup(s, key, window, now, sweepEvery);
    var found := Lookup(Prepared(s, window, now, sweepEvery).entries, key);
    NothingSuffix(full);
    SuffixOf(Expire(found, now - window), found, full);
  }

  // ------------------------------------------------------------- eviction only fails open

  /** A hit is decided correctly exactly when the deque knows `limit` unexpired hits or the
      limiter has not accepted that many. */
  lemma DecidedIff(c: Config, events: seq<Event>, e: Event)
    requires ValidConfig(c) && Monotone(events + [e])
    ensures Known(c, events, e.key, e.now) <= Unexpired(c, events, e.key, e.now)
    ensures Correct(c, events, e)
      <==> Known(c, events, e.key, e.now) >= c.limit(e.key) || Unexpired(c, events, e.key, e.now) < c.limit(e.key)
  {
    hide Run, Accepted, Lookup, Refuses, Monotone, Meets, CountAfter;
    RunMeets(c, events, e);
    RunTracked(c, events, e.key);
    OwnHit(c, events, e);
    SuffixCount(Held(c, events, e.key), Accepted(c, events, e.key), e.now - c.window(e.key));
  }

  /** Whatever is evicted, no hit is refused that finds fewer than `limit` in its window. */
  lemma RefusalIsEarned(c: Config, events: seq<Event>, e: Event)
    requires ValidConfig(c) && Monotone(events + [e]) && Refuses(c, Run(c, events), e)
    ensures Unexpired(c, events, e.key, e.now) >= c.limit(e.key)
  {
    hide Run, Known, Unexpired, Refuses, Monotone;
    DecidedIff(c, events, e);
    OwnHit(c, events, e);
  }

  // ------------------------------------------------------------- exactly when a key is safe

  /** The deque holds every unexpired hit of the key, or as many as its limit. */
  predicate Safe(c: Config, events: seq<Event>, key: string, now: real)
    requires c.sweepEvery > 0
  {
    Known(c, events, key, now) == Unexpired(c, events, key, now) || Known(c, events, key, now) >= c.limit(key)
  }

  /** Hits of one key alone, from `now` on. */
  ghost predicate Continues(events: seq<Event>, more: seq<Event>, key: string, now: real) {
    && Monotone(events + more)
    && forall i | 0 <= i < |more| :: more[i].key == key && more[i].now >= now
  }

  ghost predicate AllCorrect(c: Config, events: seq<Event>, more: seq<Event>)
    requires c.sweepEvery > 0
    decreases more
  {
    more == [] || (Correct(c, events, more[0]) && AllCorrect(c, events + [more[0]], more[1..]))
  }

  lemma SafeLater(c: Config, events: seq<Event>, key: string, now: real, later: real)
    requires ValidConfig(c) && Monotone(events) && Safe(c, events, key, now) && now <= later
    ensures Safe(c, events, key, later)
  {
    hide Run, Accepted, Lookup, Monotone, CountAfter, Covers, TimesSorted, Suffix;
    RunTracked(c, events, key);
    var hits, full := Held(c, events, key), Accepted(c, events, key);
    var cutoff := now - c.window(key);
    SuffixCount(hits, full, cutoff);
    SuffixCount(hits, full, later - c.window(key));
    if Covers(hits, full, cutoff) {
      CoversLater(hits, full, cutoff, later - c.window(key));
    } else if CountAfter(hits, later - c.window(key)) < CountAfter(hits, cutoff) {
      LackExpires(hits, full, cutoff, later - c.window(key));
    }
  }

  lemma {:induction false} SafeContinues(c: Config, events: seq<Event>, more: seq<Event>, key: string, now: real)
    requires ValidConfig(c) && Continues(events, more, key, now) && Safe(c, events, key, now)
    ensures AllCorrect(c, events, more)
    decreases more
  {
    hide Run, Known, Unexpired, Correct, Refuses, Monotone;
    if more != [] {
      var e := more[0];
      FirstOf(events, more);
      SafeLater(c, events, key, now, e.now);
      DecidedIff(c, events, e);
      OwnHit(c, events, e);
      SafeContinues(c, events + [e], more[1..], key, e.now);
    }
  }

  lemma FirstOf(events: seq<Event>, more: seq<Event>)
    requires Monotone(events + more) && more != []
    ensures Monotone(events) && Monotone(events + [more[0]]) && Monotone(events + [more[0]] + more[1..])
    ensures forall i | 0 <= i < |more[1..]| :: more[1..][i].now >= more[0].now
  {
    var all := events + more;
    assert events + [more[0]] + more[1..] == all;
    assert forall i | 0 <= i < |events + [more[0]]| :: (events + [more[0]])[i] == all[i];
    assert forall i | 0 <= i < |events| :: events[i] == all[i];
    forall i | 0 <= i < |more[1..]| ensures more[1..][i].now >= more[0].now {
      assert more[1..][i] == all[|events| + 1 + i] && more[0] == all[|events|];
    }
  }

  /** Otherwise hitting the key again at once exceeds its limit. */
  lemma {:induction false} UnsafeFails(c: Config, events: seq<Event>, key: string, now: real) returns (more: seq<Event>)
    requires ValidConfig(c) && Monotone(events + [Event(key, now)]) && !Safe(c, events, key, now)
    ensures Continues(events, more, key, now) && !AllCorrect(c, events, more)
    decreases c.limit(key) - Known(c, events, key, now)
  {
    hide Run, Known, Unexpired, Correct, Refuses, Monotone;
    var e := Event(key, now);
    DecidedIff(c, events, e);
    OwnHit(c, events, e);
    if Unexpired(c, events, key, now) >= c.limit(key) {
      more := [e];
    } else {
      AgainNow(events, e);
      var rest := UnsafeFails(c, events + [e], key, now);
      more := [e] + rest;
      assert more[1..] == rest;
      assert events + more == events + [e] + rest;
    }
  }

  lemma AgainNow(events: seq<Event>, e: Event)
    requires Monotone(events + [e])
    ensures Monotone(events + [e] + [e])
  {
    var all, again := events + [e], events + [e] + [e];
    forall i, j | 0 <= i < j < |again| ensures again[i].now <= again[j].now {
      assert again[i] == all[i] && (j < |all| ==> again[j] == all[j]);
      assert i < |all| - 1 ==> all[i].now <= all[|all| - 1].now;
    }
  }

  /**
   Every hit of a key from `now` on is decided correctly, as long as no other key is hit, if and
   only if the key's deque still holds all its unexpired hits or its limit of them.
   */
  lemma SafeIff(c: Config, events: seq<Event>, key: string, now: real)
    requires ValidConfig(c) && Monotone(events + [Event(key, now)])
    ensures Safe(c, events, key, now)
      <==> forall more | Continues(events, more, key, now) :: AllCorrect(c, events, more)
  {
    hide Safe, AllCorrect, Continues;
    if Safe(c, events, key, now) {
      forall more | Continues(events, more, key, now) ensures AllCorrect(c, events, more) {
        SafeContinues(c, events, more, key, now);
      }
    } else {
      var more := UnsafeFails(c, events, key, now);
    }
  }

  /** Equal counts mean that only expired hits are missing from the deque. */
  lemma KnownIff(c: Config, events: seq<Event>, key: string, now: real)
    requires ValidConfig(c) && Monotone(events)
    ensures Known(c, events, key, now) == Unexpired(c, events, key, now)
      <==> Covers(Held(c, events, key), Accepted(c, events, key), now - c.window(key))
  {
    hide Run, Accepted, Lookup, Monotone, CountAfter, Covers, TimesSorted, Suffix;
    RunTracked(c, events, key);
    SuffixCount(Held(c, events, key), Accepted(c, events, key), now - c.window(key));
  }

  // ------------------------------------------------------------- a key in use stays

  /** The keys hit since the last hit of `key`. */
  function KeysSince(events: seq<Event>, key: string): set<string> {
    set j | LastUse(events, key) < j < |events| :: events[j].key
  }

  /** Between hits of the key, and since its last one, fewer than `maxKeys` other keys are hit. */
  ghost predicate InUse(c: Config, events: seq<Event>, key: string) {
    events == [] || (InUse(c, events[..|events| - 1], key)
      && (LastUse(events, key) >= 0 ==> |KeysSince(events, key)| < c.maxKeys))
  }

  lemma {:induction false} KeysOf(es: seq<Entry>, from: nat, keys: set<string>)
    requires Distinct(es) && from <= |es| && forall j | from <= j < |es| :: es[j].key in keys
    ensures |es| - from <= |keys|
    decreases |es| - from
  {
    if from < |es| {
      var k := es[from].key;
      KeysOf(es, from + 1, keys - {k});
    }
  }

  /** What is pushed out has not been hit for `maxKeys` keys. */
  lemma PushedOutSince(c: Config, s: State, events: seq<Event>, e: Event, key: string, hits: seq<real>)
    requires Meets(c, s, events, e) && PushedOut(c, s, e, key, hits)
    ensures |KeysSince(events + [e], key)| >= c.maxKeys
  {
    hide Healthy, Fresh, Filed, Prepared, LastUse, KeysSince, Distinct, GoodDeques;
    FiledHealthy(c, s, events, e);
    var cutoff := e.now - Prepared(s, c.window(e.key), e.now, c.sweepEvery).widest;
    FreshOrdered(Filed(c, s, e), cutoff, events + [e]);
    var live := Fresh(Filed(c, s, e), cutoff);
    OrderedDistinct(live, events + [e]);
    var i :| 0 <= i && i + c.maxKeys < |live| && live[i] == Entry(key, hits);
    forall j | i + 1 <= j < |live| ensures live[j].key in KeysSince(events + [e], key) {
      assert LastUse(events + [e], live[i].key) < LastUse(events + [e], live[j].key);
      UsedSince(events + [e], key, live[j].key);
    }
    KeysOf(live, i + 1, KeysSince(events + [e], key));
  }

  lemma UsedSince(events: seq<Event>, key: string, other: string)
    requires LastUse(events, key) < LastUse(events, other)
    ensures other in KeysSince(events, key)
  {
    hide LastUse;
    assert events[LastUse(events, other)].key == other;
  }

  lemma {:induction false} AcceptedIsUse(c: Config, events: seq<Event>, key: string)
    requires c.sweepEvery > 0
    ensures Accepted(c, events, key) != [] ==> LastUse(events, key) >= 0
  {
    hide Refuses, Run;
    if events != [] {
      AcceptedIsUse(c, events[..|events| - 1], key);
    }
  }

  /** While the key is in use, its deque lacks expired hits only. */
  lemma {:induction false} InUseKeeps(c: Config, events: seq<Event>, key: string)
    requires ValidConfig(c) && Monotone(events) && InUse(c, events, key)
    ensures Known(c, events, key, LastTime(events)) == Unexpired(c, events, key, LastTime(events))
  {
    hide Run, Accepted, Lookup, Meets, Monotone, CountAfter, KeysSince, LastUse, Known, Unexpired;
    if events == [] {
      NothingKnown(c, key);
    } else {
      var past, e := events[..|events| - 1], events[|events| - 1];
      assert past + [e] == events;
      RunMeets(c, past, e);
      InUseKeeps(c, past, key);
      KnownLater(c, past, key, LastTime(past), e.now);
      if e.key == key {
        OwnHit(c, past, e);
      } else {
        AcceptedIsUse(c, past + [e], key);
        OtherKeeps(c, past, e, key);
      }
    }
  }

  lemma NothingKnown(c: Config, key: string)
    requires c.sweepEvery > 0
    ensures Known(c, [], key, 0.0) == Unexpired(c, [], key, 0.0) == 0 && Accepted(c, [], key) == []
  {
  }

  lemma KnownLater(c: Config, events: seq<Event>, key: string, now: real, later: real)
    requires ValidConfig(c) && Monotone(events) && Known(c, events, key, now) == Unexpired(c, events, key, now)
    requires now <= later || events == []
    ensures Known(c, events, key, later) == Unexpired(c, events, key, later)
  {
    hide Held, Accepted, CountAfter;
    KnownIff(c, events, key, now);
    KnownIff(c, events, key, later);
    if events == [] {
      NothingKnown(c, key);
      RunTracked(c, events, key);
    } else {
      CoversLater(Held(c, events, key), Accepted(c, events, key), now - c.window(key), later - c.window(key));
    }
  }

  lemma OtherKeeps(c: Config, events: seq<Event>, e: Event, key: string)
    requires ValidConfig(c) && Monotone(events + [e]) && key != e.key
    requires Known(c, events, key, e.now) == Unexpired(c, events, key, e.now)
    requires Accepted(c, events + [e], key) != [] ==> |KeysSince(events + [e], key)| < c.maxKeys
    ensures Known(c, events + [e], key, e.now) == Unexpired(c, events + [e], key, e.now)
  {
    hide Run, Accepted, Lookup, Meets, Monotone, CountAfter, KeysSince, Next, TimesSorted, PushedOut, Suffix;
    var s, hits := Run(c, events), Held(c, events, key);
    var full := Accepted(c, events, key);
    RunMeets(c, events, e);
    RunTracked(c, events, key);
    RunTracked(c, events + [e], key);
    Snoc(c, events, e, key);
    assert full + [] == full;
    OtherHit(c, s, events, e, key);
    if full != [] {
      if PushedOut(c, s, e, key, hits) {
        PushedOutSince(c, s, events, e, key, hits);
      }
      SuffixSorted(hits, full);
      StaleCount(hits, e.now - Run(c, events + [e]).widest, e.now - c.window(key));
    }
    CountZero([], e.now - c.window(key));
    EmptySuffix(hits, full);
  }

  lemma EmptySuffix(hits: seq<real>, full: seq<real>)
    requires Suffix(hits, full)
    ensures full == [] ==> hits == []
  {
  }

  /**
   A key between whose hits fewer than `maxKeys` other keys are hit is decided correctly,
   however many keys are live.
   */
  lemma InUseCorrect(c: Config, events: seq<Event>, e: Event)
    requires ValidConfig(c) && Monotone(events + [e]) && InUse(c, events, e.key)
    ensures Correct(c, events, e)
  {
    hide Run, Accepted, Known, Unexpired, Meets, Monotone, InUse;
    RunMeets(c, events, e);
    InUseKeeps(c, events, e.key);
    KnownLater(c, events, e.key, LastTime(events), e.now);
    DecidedIff(c, events, e);
  }

  // ------------------------------------------------------------- what a limit means

  /** Hits in the half-open interval (from, to]. */
  function CountBetween(hits: seq<real>, from: real, to: real): (n: nat)
    ensures n <= |hits|
  {
    if hits == [] then 0
    else CountBetween(hits[..|hits| - 1], from, to) + (if from < hits[|hits| - 1] <= to then 1 else 0)
  }

  /** Accepted hits, `limit` apart in the log, are at least a window apart in time. */
  ghost predicate Spaced(hits: seq<real>, limit: nat, window: real) {
    forall i :: 0 <= i && i + limit < |hits| ==> hits[i + limit] - hits[i] >= window
  }

  /** Every hit of the key so far was decided correctly. */
  ghost predicate CorrectSoFar(c: Config, events: seq<Event>, key: string)
    requires c.sweepEvery > 0
  {
    events == [] || (CorrectSoFar(c, events[..|events| - 1], key)
      && (events[|events| - 1].key == key ==> Correct(c, events[..|events| - 1], events[|events| - 1])))
  }

  lemma NothingSpaced(limit: nat, window: real)
    ensures Spaced([], limit, window)
  {
  }

  lemma AcceptSpaced(hits: seq<real>, limit: nat, window: real, now: real)
    requires Spaced(hits, limit, window) && limit > 0 && TimesSorted(hits)
    requires CountAfter(hits, now - window) < limit
    ensures Spaced(hits + [now], limit, window)
  {
    hide CountAfter;
    var i := |hits| - limit;
    if i >= 0 && hits[i] > now - window {
      assert hits == hits[..i] + hits[i..];
      CountAppend(hits[..i], hits[i..], now - window);
      CountAll(hits[i..], now - window);
    }
  }

  lemma {:induction false} CorrectSpaced(c: Config, events: seq<Event>, key: string)
    requires ValidConfig(c) && Monotone(events) && CorrectSoFar(c, events, key)
    ensures Spaced(Accepted(c, events, key), c.limit(key), c.window(key))
  {
    hide Run, Accepted, Refuses, Monotone, Spaced, TimesSorted, Meets, Held;
    if events == [] {
      NothingKnown(c, key);
      NothingSpaced(c.limit(key), c.window(key));
    } else {
      var past, e := events[..|events| - 1], events[|events| - 1];
      assert past + [e] == events;
      RunMeets(c, past, e);
      RunTracked(c, past, key);
      CorrectSpaced(c, past, key);
      Snoc(c, past, e, key);
      var full := Accepted(c, past, key);
      assert full + [] == full;
      if e.key == key && !Refuses(c, Run(c, past), e) {
        AcceptSpaced(full, c.limit(key), c.window(key), e.now);
      }
    }
  }

  lemma {:induction false} SpacedCount(hits: seq<real>, limit: nat, window: real, end: real)
    requires Spaced(hits, limit, window) && TimesSorted(hits) && limit > 0
    ensures CountBetween(hits, end - window, end) <= limit
  {
    if |hits| > limit {
      var n := |hits| - 1;
      if hits[n] > end {
        SpacedCount(hits[..n], limit, window, end);
      } else {
        var cut := n + 1 - limit;
        assert hits[cut - 1 + limit] - hits[cut - 1] >= window;
        BetweenSuffix(hits, cut, end - window, end);
      }
    }
  }

  lemma BetweenSuffix(hits: seq<real>, cut: nat, from: real, to: real)
    requires 0 < cut <= |hits| && TimesSorted(hits) && hits[cut - 1] <= from
    ensures CountBetween(hits, from, to) <= |hits| - cut
  {
    hide CountBetween;
    assert hits == hits[..cut] + hits[cut..];
    forall i | 0 <= i < cut ensures hits[i] <= from {
      assert hits[i] <= hits[cut - 1];
    }
    BetweenAppend(hits[..cut], hits[cut..], from, to);
    BetweenNone(hits[..cut], from, to);
  }

  lemma {:induction false} BetweenAppend(a: seq<real>, b: seq<real>, from: real, to: real)
    ensures CountBetween(a + b, from, to) == CountBetween(a, from, to) + CountBetween(b, from, to)
  {
    if b == [] {
      assert a + b == a;
    } else {
      assert (a + b)[..|a + b| - 1] == a + b[..|b| - 1];
      BetweenAppend(a, b[..|b| - 1], from, to);
    }
  }

  lemma {:induction false} BetweenNone(hits: seq<real>, from: real, to: real)
    requires forall i :: 0 <= i < |hits| ==> hits[i] <= from
    ensures CountBetween(hits, from, to) == 0
  {
    if hits != [] {
      BetweenNone(hits[..|hits| - 1], from, to);
    }
  }

  /** Appending hits to a log takes nothing out of an interval. */
  lemma BetweenGrows(a: seq<real>, b: seq<real>, from: real, to: real)
    ensures CountBetween(a + b, from, to) >= CountBetween(a, from, to)
  {
    hide CountBetween;
    BetweenAppend(a, b, from, to);
  }

  /** Up to the newest hit, the interval ends nowhere. */
  lemma {:induction false} BetweenAfter(hits: seq<real>, from: real, to: real)
    requires forall i :: 0 <= i < |hits| ==> hits[i] <= to
    ensures CountBetween(hits, from, to) == CountAfter(hits, from)
  {
    if hits != [] {
      BetweenAfter(hits[..|hits| - 1], from, to);
    }
  }

  /** Accepted hits in the window that ends at `end`. */
  function InWindow(c: Config, events: seq<Event>, key: string, end: real): nat
    requires c.sweepEvery > 0
  {
    CountBetween(Accepted(c, events, key), end - c.window(key), end)
  }

  ghost predicate WithinLimit(c: Config, events: seq<Event>, key: string)
    requires c.sweepEvery > 0
  {
    forall end :: InWindow(c, events, key, end) <= c.limit(key)
  }

  /** A wrong decision lets one hit too many into the window that ends with it. */
  lemma WrongIsOverLimit(c: Config, events: seq<Event>, e: Event)
    requires ValidConfig(c) && Monotone(events + [e])
    ensures Correct(c, events, e) || InWindow(c, events + [e], e.key, e.now) > c.limit(e.key)
  {
    hide Run, Accepted, Refuses, Monotone, Meets, Held, CountAfter, CountBetween, Known;
    RunMeets(c, events, e);
    RunTracked(c, events + [e], e.key);
    DecidedIff(c, events, e);
    OwnHit(c, events, e);
    var full := Accepted(c, events + [e], e.key);
    LatestBounds(full, e.now);
    BetweenAfter(full, e.now - c.window(e.key), e.now);
  }

  lemma LatestBounds(hits: seq<real>, now: real)
    requires TimesSorted(hits) && (hits != [] ==> hits[|hits| - 1] <= now)
    ensures forall i :: 0 <= i < |hits| ==> hits[i] <= now
  {
  }

  lemma {:induction false} WithinIsCorrect(c: Config, events: seq<Event>, key: string)
    requires ValidConfig(c) && Monotone(events) && WithinLimit(c, events, key)
    ensures CorrectSoFar(c, events, key)
  {
    hide Run, Accepted, Refuses, Monotone, Meets, CountBetween, Correct;
    if events != [] {
      var past, e := events[..|events| - 1], events[|events| - 1];
      assert past + [e] == events;
      RunMeets(c, past, e);
      Snoc(c, past, e, key);
      var now := Accepted(c, past, key);
      forall end ensures InWindow(c, past, key, end) <= c.limit(key) {
        assert InWindow(c, events, key, end) <= c.limit(key);
        BetweenGrows(now, if e.key == key && !Refuses(c, Run(c, past), e) then [e.now] else [], end - c.window(key), end);
      }
      WithinIsCorrect(c, past, key);
      if e.key == key {
        assert InWindow(c, events, key, e.now) <= c.limit(key);
        WrongIsOverLimit(c, past, e);
      }
    }
  }

  /**
   No window of the configured length, wherever it ends, holds more than `limit` accepted hits of
   a key if and only if every hit of the key was decided correctly.
   */
  lemma WithinLimitIff(c: Config, events: seq<Event>, key: string)
    requires ValidConfig(c) && Monotone(events)
    ensures WithinLimit(c, events, key) <==> CorrectSoFar(c, events, key)
  {
    hide Accepted, CorrectSoFar, Monotone, Spaced, TimesSorted, CountBetween;
    if CorrectSoFar(c, events, key) {
      CorrectSpaced(c, events, key);
      TrackedSorted(c, events, key);
      forall end ensures InWindow(c, events, key, end) <= c.limit(key) {
        SpacedCount(Accepted(c, events, key), c.limit(key), c.window(key), end);
      }
    } else if WithinLimit(c, events, key) {
      WithinIsCorrect(c, events, key);
    }
  }

  lemma TrackedSorted(c: Config, events: seq<Event>, key: string)
    requires ValidConfig(c) && Monotone(events)
    ensures TimesSorted(Accepted(c, events, key))
  {
    hide Accepted, Run, Suffix, TimesSorted;
    RunTracked(c, events, key);
  }

  // ------------------------------------------------------------- two sufficient conditions

  /** With room for every live key, the limiter accepts what the unbounded one does. */
  lemma {:induction false} AcceptedIsLog(c: Config, events: seq<Event>, key: string)
    requires ValidConfig(c) && Monotone(events) && WithinCapacity(c, events)
    ensures Accepted(c, events, key) == LogOf(SpecRun(c, events), key)
  {
    hide Run, Refuses, Monotone, Meets, LiveKeys, SpecRefuses, SpecNext;
    if events != [] {
      var past, e := events[..|events| - 1], events[|events| - 1];
      assert past + [e] == events;
      RunMeets(c, past, e);
      AcceptedIsLog(c, past, key);
      SpecNextLogs(c, SpecRun(c, past), e);
      BoundedRefinesUnbounded(c, past, e);
    }
  }

  lemma {:induction false} CapacityCorrect(c: Config, events: seq<Event>, key: string)
    requires ValidConfig(c) && Monotone(events) && WithinCapacity(c, events)
    ensures CorrectSoFar(c, events, key)
  {
    hide Run, Refuses, Monotone, Meets, LiveKeys, SpecRun, Accepted, CountAfter;
    if events != [] {
      var past, e := events[..|events| - 1], events[|events| - 1];
      assert past + [e] == events;
      RunMeets(c, past, e);
      CapacityCorrect(c, past, key);
      AcceptedIsLog(c, past, e.key);
      BoundedRefinesUnbounded(c, past, e);
    }
  }

  lemma {:induction false} InUseCorrectSoFar(c: Config, events: seq<Event>, key: string)
    requires ValidConfig(c) && Monotone(events) && InUse(c, events, key)
    ensures CorrectSoFar(c, events, key)
  {
    hide Run, Correct, Monotone, Meets, KeysSince, LastUse;
    if events != [] {
      var past, e := events[..|events| - 1], events[|events| - 1];
      assert past + [e] == events;
      RunMeets(c, past, e);
      InUseCorrectSoFar(c, past, key);
      if e.key == key {
        InUseCorrect(c, past, e);
      }
    }
  }

  /** No window holds more than `limit` hits that the limiter accepted, for a key in use, or for
      every key while the live keys fit the capacity. */
  lemma NoWindowOverLimit(c: Config, events: seq<Event>, key: string, end: real)
    requires ValidConfig(c) && Monotone(events) && (InUse(c, events, key) || WithinCapacity(c, events))
    ensures InWindow(c, events, key, end) <= c.limit(key)
  {
    hide InWindow, Accepted, CorrectSoFar, Monotone, CountBetween, InUse, WithinCapacity;
    if InUse(c, events, key) {
      InUseCorrectSoFar(c, events, key);
    } else {
      CapacityCorrect(c, events, key);
    }
    WithinLimitIff(c, events, key);
  }
}
