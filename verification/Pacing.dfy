/** Fetch pacing of the git bridge (git_bridge.py): a fetch costs far more than a tick,
    so on a silent bus the interval doubles up to a ceiling. A tick is one instant. */
module Pacing {
  import opened Order

  /** `_fetch_every` and `_next_fetch`. */
  datatype Pace = Pace(every: real, next: real)

  /** `poll` is at least 0.05; `max` 0 turns pacing off. */
  datatype Config = Config(poll: real, max: real) {
    predicate Valid() { poll > 0.0 && max >= 0.0 }
  }

  /** What one tick saw: the clock, and whether it published or received anything. */
  datatype Tick = Tick(now: real, published: bool, received: bool)

  function Quicken(c: Config): Pace { Pace(c.poll, 0.0) }

  function SlowDown(p: Pace, c: Config, now: real): Pace {
    var every := Min(p.every * 2.0, c.max);
    Pace(every, now + every)
  }

  predicate Due(p: Pace, c: Config, now: real) { c.max == 0.0 || now >= p.next }

  function AfterOutbound(p: Pace, c: Config, t: Tick): Pace {
    if t.published then Quicken(c) else p
  }

  predicate Fetches(p: Pace, c: Config, t: Tick) { Due(AfterOutbound(p, c, t), c, t.now) }

  /** The pacing half of `GitBridge.tick`. */
  function AfterTick(p: Pace, c: Config, t: Tick): Pace {
    var q := AfterOutbound(p, c, t);
    if !Due(q, c, t.now) then q
    else if t.received || t.published then Quicken(c)
    else SlowDown(q, c, t.now)
  }

  function FetchCount(p: Pace, c: Config, run: seq<Tick>): nat
    decreases |run|
  {
    if run == [] then 0
    else (if Fetches(p, c, run[0]) then 1 else 0) + FetchCount(AfterTick(p, c, run[0]), c, run[1..])
  }

  function PaceAt(p: Pace, c: Config, run: seq<Tick>, i: nat): Pace
    requires i <= |run|
  {
    if i == 0 then p else AfterTick(PaceAt(p, c, run, i - 1), c, run[i - 1])
  }

  predicate FetchesAt(p: Pace, c: Config, run: seq<Tick>, i: nat)
    requires i < |run|
  {
    Fetches(PaceAt(p, c, run, i), c, run[i])
  }

  ghost predicate ClockForward(run: seq<Tick>) {
    forall i, j :: 0 <= i < j < |run| ==> run[i].now <= run[j].now
  }

  ghost predicate Silent(run: seq<Tick>) {
    forall i :: 0 <= i < |run| ==> !run[i].published && !run[i].received
  }

  /** `poll` doubled `n` times. */
  function Doubled(poll: real, n: nat): (r: real)
    requires poll > 0.0
    ensures r >= poll
  {
    if n == 0 then poll else 2.0 * Doubled(poll, n - 1)
  }

  lemma {:induction false} DoubledMonotone(poll: real, a: nat, b: nat)
    requires poll > 0.0 && a <= b
    ensures Doubled(poll, a) <= Doubled(poll, b)
  {
    if a < b {
      DoubledMonotone(poll, a, b - 1);
    }
  }

  /** Gaps still shorter than the ceiling after `k` doublings, when `doublings` reach it. */
  function ShortGaps(doublings: nat, k: nat): nat {
    if k + 1 >= doublings then 0 else doublings - 1 - k
  }

  /** `n` full ceilings, nothing for a negative `n`. */
  function Ceilings(n: int, max: real): real {
    if n <= 0 then 0.0 else max + Ceilings(n - 1, max)
  }

  lemma {:induction false} SilentGaps(p: Pace, c: Config, run: seq<Tick>, doublings: nat, k: nat, lo: real)
    requires c.poll > 0.0 && c.max > 0.0 && Doubled(c.poll, doublings) >= c.max
    requires Silent(run) && ClockForward(run)
    requires p.every >= Min(Doubled(c.poll, k), c.max)
    requires run != [] ==> lo <= run[0].now
    ensures
      var n := FetchCount(p, c, run);
      n >= 1 ==>
        && run[|run| - 1].now >= p.next
        && Ceilings(n - 1 - ShortGaps(doublings, k), c.max) <= run[|run| - 1].now - (if lo < p.next then p.next else lo)
    decreases |run|
  {
    if run != [] {
      var q := AfterTick(p, c, run[0]);
      if Fetches(p, c, run[0]) {
        assert q == SlowDown(p, c, run[0].now);
        SilentGaps(q, c, run[1..], doublings, k + 1, run[0].now);
        if k + 1 >= doublings {
          DoubledMonotone(c.poll, doublings, k + 1);
        }
        if FetchCount(q, c, run[1..]) >= 1 {
          assert run[1..][|run| - 2] == run[|run| - 1];
        }
      } else {
        SilentGaps(p, c, run[1..], doublings, k, lo);
      }
    }
  }

  lemma {:induction false} CeilingsNonnegative(n: int, max: real)
    requires max > 0.0
    ensures Ceilings(n, max) >= 0.0
  {
    if n > 0 {
      CeilingsNonnegative(n - 1, max);
    }
  }

  lemma QuotientStep(y: real, x: real)
    requires x > 0.0
    ensures y / x == (y - x) / x + 1.0
  {
    Cancel((y - x) / x + 1.0, y / x, x);
  }

  lemma Cancel(a: real, b: real, x: real)
    requires x > 0.0 && a * x == b * x
    ensures a == b
  {
    assert (a - b) * x == 0.0;
  }

  lemma {:induction false} CeilingsBound(n: int, max: real, y: real)
    requires max > 0.0 && y >= 0.0 && Ceilings(n, max) <= y
    ensures n <= (y / max).Floor
  {
    if n > 0 {
      CeilingsNonnegative(n - 1, max);
      CeilingsBound(n - 1, max, y - max);
      QuotientStep(y, max);
    }
  }

  /** From the pace a bridge starts with, no run of ticks gets below the poll interval, or the
      ceiling if that is lower. */
  lemma {:induction false} PaceBound(c: Config, run: seq<Tick>, i: nat)
    requires c.Valid() && i <= |run|
    ensures PaceAt(Quicken(c), c, run, i).every >= Min(c.poll, c.max) >= 0.0
    decreases i
  {
    if i > 0 {
      PaceBound(c, run, i - 1);
    }
  }

  /** After any ticks at all, a silent stretch of length T fetches at most max(1, L) +
      floor(T / max) times, where L doublings of the poll interval reach the ceiling. */
  lemma SilentFetchBound(c: Config, before: seq<Tick>, run: seq<Tick>, doublings: nat)
    requires c.Valid() && c.max > 0.0 && Doubled(c.poll, doublings) >= c.max
    requires run != [] && Silent(run) && ClockForward(run)
    ensures
      var p, stretch := PaceAt(Quicken(c), c, before, |before|), run[|run| - 1].now - run[0].now;
      FetchCount(p, c, run) <= (if doublings < 1 then 1 else doublings) + (stretch / c.max).Floor
  {
    var p, stretch := PaceAt(Quicken(c), c, before, |before|), run[|run| - 1].now - run[0].now;
    assert stretch >= 0.0;
    var n := FetchCount(p, c, run);
    PaceBound(c, before, |before|);
    SilentGaps(p, c, run, doublings, 0, run[0].now);
    CeilingsBound(if n >= 1 then n - 1 - ShortGaps(doublings, 0) else 0, c.max, stretch);
  }

  /** How many of the first `j` ticks fetch. */
  function FetchesBefore(p: Pace, c: Config, run: seq<Tick>, j: nat): nat
    requires j <= |run|
  {
    if j == 0 then 0 else FetchesBefore(p, c, run, j - 1) + if FetchesAt(p, c, run, j - 1) then 1 else 0
  }

  lemma {:induction false} PaceSinceFetch(c: Config, run: seq<Tick>, i: nat, j: nat)
    requires c.Valid() && c.max > 0.0 && Silent(run) && i < j <= |run| && FetchesAt(Quicken(c), c, run, i)
    requires forall k :: i < k < j ==> !FetchesAt(Quicken(c), c, run, k)
    ensures
      var wait := Min(Doubled(c.poll, FetchesBefore(Quicken(c), c, run, j)), c.max);
      PaceAt(Quicken(c), c, run, j) == Pace(wait, run[i].now + wait)
    decreases j
  {
    if i + 1 < j {
      assert !FetchesAt(Quicken(c), c, run, j - 1);
      PaceSinceFetch(c, run, i, j - 1);
    } else if FetchesBefore(Quicken(c), c, run, i) > 0 {
      var h := LastFetch(c, run, i);
      PaceSinceFetch(c, run, h, i);
    } else {
      NoFetchYet(c, run, i);
    }
  }

  lemma {:induction false} LastFetch(c: Config, run: seq<Tick>, j: nat) returns (i: nat)
    requires j <= |run| && FetchesBefore(Quicken(c), c, run, j) > 0
    ensures i < j && FetchesAt(Quicken(c), c, run, i)
    ensures forall k :: i < k < j ==> !FetchesAt(Quicken(c), c, run, k)
  {
    if FetchesAt(Quicken(c), c, run, j - 1) {
      i := j - 1;
    } else {
      i := LastFetch(c, run, j - 1);
    }
  }

  lemma {:induction false} NoFetchYet(c: Config, run: seq<Tick>, j: nat)
    requires c.max > 0.0 && Silent(run) && j <= |run| && FetchesBefore(Quicken(c), c, run, j) == 0
    ensures PaceAt(Quicken(c), c, run, j) == Quicken(c)
  {
    if j > 0 {
      NoFetchYet(c, run, j - 1);
    }
  }

  /** The back-off, exactly: on a silent bus, after `n` fetches the next one comes with the
      first tick that lies the poll interval doubled `n` times after the last fetch, or the
      ceiling after it if that is less. */
  lemma SilentFetchIff(c: Config, run: seq<Tick>, i: nat, j: nat)
    requires c.Valid() && c.max > 0.0 && Silent(run) && i < j < |run| && FetchesAt(Quicken(c), c, run, i)
    requires forall k :: i < k < j ==> !FetchesAt(Quicken(c), c, run, k)
    ensures FetchesAt(Quicken(c), c, run, j) <==>
      run[j].now >= run[i].now + Min(Doubled(c.poll, FetchesBefore(Quicken(c), c, run, j)), c.max)
  {
    PaceSinceFetch(c, run, i, j);
  }

  lemma {:induction false} NextWhileWaiting(p: Pace, c: Config, run: seq<Tick>, i: nat, j: nat)
    requires i < j < |run| && FetchesAt(p, c, run, i)
    requires forall k :: i < k < j ==> !FetchesAt(p, c, run, k)
    requires c.max > 0.0 && run[i].now >= 0.0
    ensures PaceAt(p, c, run, j).next <= run[i].now + c.max
    decreases j
  {
    if i + 1 < j {
      NextWhileWaiting(p, c, run, i, j - 1);
      assert !FetchesAt(p, c, run, j - 1);
    }
  }

  /** Whatever the traffic, consecutive fetches are at most the ceiling plus one tick
      interval apart. */
  lemma FetchGapBound(p: Pace, c: Config, run: seq<Tick>, i: nat, j: nat, d: real)
    requires c.Valid() && i < j < |run| && FetchesAt(p, c, run, i)
    requires forall k :: i < k < j ==> !FetchesAt(p, c, run, k)
    requires run[i].now >= 0.0
    requires forall k :: 0 < k < |run| ==> run[k].now - run[k - 1].now <= d
    ensures run[j].now - run[i].now <= c.max + d
  {
    if i + 1 < j {
      assert !FetchesAt(p, c, run, j - 1);
      NextWhileWaiting(p, c, run, i, j - 1);
    }
  }

  /** Any traffic makes the next tick fetch. */
  lemma TrafficSnapsBack(p: Pace, c: Config, t: Tick, u: Tick)
    requires t.published || (t.received && Fetches(p, c, t))
    requires u.now >= 0.0
    ensures Fetches(AfterTick(p, c, t), c, u)
  {
  }
}
