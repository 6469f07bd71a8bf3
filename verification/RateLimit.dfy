/** Fixed-window request limiters (did-hosting-control/src/rate_limit.rs).

    `IpRateLimiter` and `SourceRateLimiter` run the same algorithm on different
    key types and maxima; here they are one class with the maximum as a constant.
    Times are `now_epoch()` seconds. */
module RateLimit {
  import opened Common

  /** Challenges per IP per window. */
  const MAX_PER_WINDOW: nat := 30
  /** Invite redemptions per source per window. */
  const REDEEM_MAX_PER_WINDOW: nat := 10
  const WINDOW_SECS: nat := 60
  const MAX_TRACKED: nat := 10_000

  datatype Bucket = Bucket(count: nat, windowStart: nat)

  datatype Verdict = Admitted | Refused(retryAfter: nat)

  /** One attempt by one source. */
  datatype Attempt<K> = Attempt(source: K, at: nat)

  /** The source's bucket as the attempt finds it: created on first sight, and
      restarted lazily once its window has run out. */
  function Current<K>(buckets: map<K, Bucket>, source: K, now: nat): Bucket {
    if source in buckets && SatSub(now, buckets[source].windowStart) < WINDOW_SECS
    then buckets[source]
    else Bucket(0, now)
  }

  function Judge(b: Bucket, now: nat, max: nat): Verdict {
    if b.count >= max then Refused(SatSub(b.windowStart + WINDOW_SECS, now)) else Admitted
  }

  /** The buckets after one attempt; a full map is cleared first. */
  function Consume<K>(buckets: map<K, Bucket>, source: K, now: nat, max: nat): map<K, Bucket> {
    var kept := if |buckets| >= MAX_TRACKED then map[] else buckets;
    var b := Current(kept, source, now);
    kept[source := if b.count >= max then b else Bucket(b.count + 1, b.windowStart)]
  }

  function VerdictOf<K>(buckets: map<K, Bucket>, source: K, now: nat, max: nat): Verdict {
    var kept := if |buckets| >= MAX_TRACKED then map[] else buckets;
    Judge(Current(kept, source, now), now, max)
  }

  class Limiter<K(==)> {
    const max: nat
    var buckets: map<K, Bucket>

    constructor (max: nat)
      ensures this.max == max && buckets == map[]
    {
      this.max := max;
      buckets := map[];
    }

    /** Consume one slot for `source`, or refuse and say how long to wait. */
    method TryConsume(source: K, now: nat) returns (v: Verdict)
      modifies this
      ensures buckets == Consume(old(buckets), source, now, max)
      ensures v == VerdictOf(old(buckets), source, now, max)
      ensures |old(buckets)| <= MAX_TRACKED ==> |buckets| <= MAX_TRACKED
    {
      if |buckets| >= MAX_TRACKED {
        buckets := map[];
      }
      var entry := if source in buckets then buckets[source] else Bucket(0, now);
      if SatSub(now, entry.windowStart) >= WINDOW_SECS {
        entry := Bucket(0, now);
      }
      if entry.count >= max {
        buckets := buckets[source := entry];
        return Refused(SatSub(entry.windowStart + WINDOW_SECS, now));
      }
      buckets := buckets[source := entry.(count := entry.count + 1)];
      return Admitted;
    }
  }

  // ---------------------------------------------------------------------
  // Whole runs
  // ---------------------------------------------------------------------

  /** How many of `source`'s attempts in `[lo, lo + WINDOW_SECS)` a run admits. */
  function AdmittedIn<K(==)>(buckets: map<K, Bucket>, run: seq<Attempt<K>>, max: nat, source: K, lo: nat): nat
    decreases run
  {
    if run == [] then 0
    else (if && run[0].source == source
             && lo <= run[0].at < lo + WINDOW_SECS
             && VerdictOf(buckets, source, run[0].at, max).Admitted? then 1 else 0)
         + AdmittedIn(Consume(buckets, run[0].source, run[0].at, max), run[1..], max, source, lo)
  }

  /** The clock never goes back, starting from `since`. */
  predicate InOrder<K>(run: seq<Attempt<K>>, since: nat) {
    run == [] || (since <= run[0].at && InOrder(run[1..], run[0].at))
  }

  /** The run never finds the map full, so the eviction never fires. */
  predicate NoEviction<K>(buckets: map<K, Bucket>, run: seq<Attempt<K>>, max: nat)
    decreases run
  {
    run == [] || (|buckets| < MAX_TRACKED
                  && NoEviction(Consume(buckets, run[0].source, run[0].at, max), run[1..], max))
  }

  /** What the bucket map says about one source. */
  function Lookup<K>(buckets: map<K, Bucket>, source: K): Option<Bucket> {
    if source in buckets then Some(buckets[source]) else None
  }

  /** The most a source may still be admitted in `[lo, lo + WINDOW_SECS)` once no
      attempt before `lo` is left. */
  function Room(b: Option<Bucket>, max: nat, lo: nat): int {
    match b
    case None => max
    case Some(b) => max - b.count + (if b.windowStart < lo then max else 0)
  }

  /** From `lo` on, a source gets what is left of its window, plus one more window
      if the current one began before `lo`. */
  lemma {:induction false} WithinRoom<K>(buckets: map<K, Bucket>, run: seq<Attempt<K>>, max: nat, source: K, lo: nat,
                                         since: nat)
    requires NoEviction(buckets, run, max) && InOrder(run, since) && lo <= since
    requires source in buckets ==> buckets[source].windowStart <= since && buckets[source].count <= max
    ensures AdmittedIn(buckets, run, max, source, lo) <= Room(Lookup(buckets, source), max, lo)
    decreases run
  {
    if run != [] {
      var next := Consume(buckets, run[0].source, run[0].at, max);
      if run[0].at >= lo + WINDOW_SECS {
        PastInterval(buckets, run, max, source, lo, run[0].at);
      } else {
        WithinRoom(next, run[1..], max, source, lo, run[0].at);
      }
    }
  }

  /** Nothing after the interval is counted in it. */
  lemma {:induction false} PastInterval<K>(buckets: map<K, Bucket>, run: seq<Attempt<K>>, max: nat, source: K,
                                           lo: nat, since: nat)
    requires InOrder(run, since) && lo + WINDOW_SECS <= since
    ensures AdmittedIn(buckets, run, max, source, lo) == 0
    decreases run
  {
    if run != [] {
      PastInterval(Consume(buckets, run[0].source, run[0].at, max), run[1..], max, source, lo, run[0].at);
    }
  }

  /** The bound over any run: no interval one window long admits more than
      `2 * max - 1` attempts of one source. */
  lemma {:induction false} WindowBound<K>(buckets: map<K, Bucket>, run: seq<Attempt<K>>, max: nat, source: K, lo: nat,
                                          since: nat)
    requires NoEviction(buckets, run, max) && InOrder(run, since)
    requires source in buckets ==>
      buckets[source].windowStart <= since && (max == 0 || 1 <= buckets[source].count) && buckets[source].count <= max
    ensures AdmittedIn(buckets, run, max, source, lo) <= if max == 0 then 0 else 2 * max - 1
    decreases run
  {
    if run != [] {
      if lo <= run[0].at {
        WithinRoom(buckets, run, max, source, lo, run[0].at);
      } else {
        WindowBound(Consume(buckets, run[0].source, run[0].at, max), run[1..], max, source, lo, run[0].at);
      }
    }
  }

  function Repeat<K>(source: K, at: nat, n: nat): (run: seq<Attempt<K>>)
    ensures |run| == n
  {
    if n == 0 then [] else [Attempt(source, at)] + Repeat(source, at, n - 1)
  }

  /** A burst that fits in what is left of the window is admitted whole. */
  lemma {:induction false} BurstAdmitted<K>(buckets: map<K, Bucket>, n: nat, rest: seq<Attempt<K>>, max: nat,
                                            source: K, lo: nat, at: nat)
    requires |buckets| < MAX_TRACKED && source in buckets
    requires buckets[source].windowStart <= at < buckets[source].windowStart + WINDOW_SECS
    requires lo <= at < lo + WINDOW_SECS && buckets[source].count + n <= max
    ensures AdmittedIn(buckets, Repeat(source, at, n) + rest, max, source, lo)
         == n + AdmittedIn(buckets[source := Bucket(buckets[source].count + n, buckets[source].windowStart)], rest,
                           max, source, lo)
    decreases n
  {
    var b := buckets[source];
    if n == 0 {
      assert Repeat(source, at, n) + rest == rest;
      assert buckets[source := Bucket(b.count + n, b.windowStart)] == buckets;
    } else {
      var run := Repeat(source, at, n) + rest;
      assert run[0] == Attempt(source, at) && run[1..] == Repeat(source, at, n - 1) + rest;
      var next := Consume(buckets, source, at, max);
      assert next == buckets[source := Bucket(b.count + 1, b.windowStart)];
      assert next.Keys == buckets.Keys;
      assert |next| == |next.Keys| && |buckets| == |buckets.Keys|;
      BurstAdmitted(next, n - 1, rest, max, source, lo, at);
      assert next[source := Bucket(next[source].count + (n - 1), b.windowStart)]
          == buckets[source := Bucket(b.count + n, b.windowStart)];
    }
  }

  /** A new window, whatever the old one held, admits a whole maximum. */
  lemma WholeWindowAdmitted<K>(source: K, max: nat)
    requires max >= 1
    ensures AdmittedIn(map[source := Bucket(max, 0)], Repeat(source, 60, max), max, source, 1) == max
  {
    var full := map[source := Bucket(max, 0)];
    var late := Repeat(source, 60, max);
    assert |full.Keys| == |full| && full.Keys == {source};
    var restarted := Consume(full, source, 60, max);
    assert restarted == map[source := Bucket(1, 60)] && |restarted.Keys| == |restarted| && restarted.Keys == {source};
    assert late[0] == Attempt(source, 60) && late[1..] == Repeat(source, 60, max - 1);
    assert late[1..] + [] == late[1..];
    BurstAdmitted(restarted, max - 1, [], max, source, 1, 60);
  }

  /** The bound is reached: one attempt at 0, the rest of that window at 59, a whole
      new window at 60; the interval `[1, 61)` then holds `2 * max - 1` admissions. */
  lemma WindowBoundIsTight<K>(source: K, max: nat)
    requires max >= 1
    ensures
      var run := [Attempt(source, 0)] + Repeat(source, 59, max - 1) + Repeat(source, 60, max);
      AdmittedIn(map[], run, max, source, 1) == 2 * max - 1
  {
    var first := map[source := Bucket(1, 0)];
    var late := Repeat(source, 60, max);
    var run := [Attempt(source, 0)] + Repeat(source, 59, max - 1) + late;
    assert run[0] == Attempt(source, 0) && run[1..] == Repeat(source, 59, max - 1) + late;
    assert Consume(map[], source, 0, max) == first;
    assert |first.Keys| == |first| && first.Keys == {source};
    BurstAdmitted(first, max - 1, late, max, source, 1, 59);
    assert first[source := Bucket(max, 0)] == map[source := Bucket(max, 0)];
    WholeWindowAdmitted(source, max);
  }

  /** Fewer distinct sources than the cap: a caller can check it, and it keeps the
      eviction away. */
  lemma {:induction false} FewSourcesNoEviction<K>(buckets: map<K, Bucket>, run: seq<Attempt<K>>, max: nat,
                                                   sources: set<K>)
    requires buckets.Keys <= sources && |sources| < MAX_TRACKED
    requires forall a :: a in run ==> a.source in sources
    ensures NoEviction(buckets, run, max)
    decreases run
  {
    SubsetSize(buckets.Keys, sources);
    if run != [] {
      assert run[0] in run;
      forall a | a in run[1..] ensures a.source in sources { assert a in run; }
      FewSourcesNoEviction(Consume(buckets, run[0].source, run[0].at, max), run[1..], max, sources);
    }
  }

  // ---------------------------------------------------------------------
  // The retry hint
  // ---------------------------------------------------------------------

  /** The verdict of each of `source`'s attempts in a run. */
  function VerdictsFor<K(==)>(buckets: map<K, Bucket>, run: seq<Attempt<K>>, max: nat, source: K): seq<(nat, Verdict)>
    decreases run
  {
    if run == [] then []
    else (if run[0].source == source then [(run[0].at, VerdictOf(buckets, source, run[0].at, max))] else [])
         + VerdictsFor(Consume(buckets, run[0].source, run[0].at, max), run[1..], max, source)
  }

  /** The leading refusals all come before `moment`, and the first attempt at or
      after it, if there is one, is admitted. */
  predicate RefusedUntil(vs: seq<(nat, Verdict)>, moment: nat) {
    vs == [] || (if vs[0].0 < moment then vs[0].1.Refused? && RefusedUntil(vs[1..], moment) else vs[0].1.Admitted?)
  }

  /** After a refusal hinting `r`, whatever is tried next by anyone: each of the
      source's attempts before `now + r` is refused, and its first attempt from
      `now + r` on is admitted. */
  lemma {:induction false} RetryHintIsExact<K>(buckets: map<K, Bucket>, run: seq<Attempt<K>>, max: nat, source: K,
                                               now: nat)
    requires |buckets| < MAX_TRACKED && max >= 1
    requires source in buckets ==> buckets[source].windowStart <= now
    requires VerdictOf(buckets, source, now, max).Refused?
    requires NoEviction(Consume(buckets, source, now, max), run, max) && InOrder(run, now)
    ensures
      var r := VerdictOf(buckets, source, now, max).retryAfter;
      r >= 1 && RefusedUntil(VerdictsFor(Consume(buckets, source, now, max), run, max, source), now + r)
  {
    var b := Current(buckets, source, now);
    StaysRefused(Consume(buckets, source, now, max), run, max, source, now, b);
  }

  lemma {:induction false} StaysRefused<K>(buckets: map<K, Bucket>, run: seq<Attempt<K>>, max: nat, source: K,
                                           since: nat, b: Bucket)
    requires max >= 1 && Lookup(buckets, source) == Some(b) && b.count >= max
    requires NoEviction(buckets, run, max) && InOrder(run, since) && b.windowStart <= since
    ensures RefusedUntil(VerdictsFor(buckets, run, max, source), b.windowStart + WINDOW_SECS)
    decreases run
  {
    if run != [] {
      var next := Consume(buckets, run[0].source, run[0].at, max);
      var rest := VerdictsFor(next, run[1..], max, source);
      if run[0].source == source {
        var v := (run[0].at, VerdictOf(buckets, source, run[0].at, max));
        var vs := [v] + rest;
        assert vs[0] == v && vs[1..] == rest;
        if run[0].at < b.windowStart + WINDOW_SECS {
          StaysRefused(next, run[1..], max, source, run[0].at, b);
        }
      } else {
        assert [] + rest == rest;
        StaysRefused(next, run[1..], max, source, run[0].at, b);
      }
    }
  }

  /** From a fresh start, with fewer than ten thousand sources: in no interval as long as a window
      does a source get more than 59 challenges, or 19 redemption attempts. */
  lemma BothLimits<K>(run: seq<Attempt<K>>, sources: set<K>, source: K, lo: nat)
    requires |sources| < 10_000 && InOrder(run, 0) && forall a :: a in run ==> a.source in sources
    ensures AdmittedIn(map[], run, MAX_PER_WINDOW, source, lo) <= 59
    ensures AdmittedIn(map[], run, REDEEM_MAX_PER_WINDOW, source, lo) <= 19
  {
    FewSourcesNoEviction(map[], run, MAX_PER_WINDOW, sources);
    FewSourcesNoEviction(map[], run, REDEEM_MAX_PER_WINDOW, sources);
    WindowBound(map[], run, MAX_PER_WINDOW, source, lo, 0);
    WindowBound(map[], run, REDEEM_MAX_PER_WINDOW, source, lo, 0);
  }
}
