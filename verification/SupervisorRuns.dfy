/** What the supervisor guarantees over whole runs, whatever mail arrives, whoever is
    live and however children exit (supervisor.py). The full spawn history is kept
    beside the state, because the supervisor itself prunes its start list every pass. */
module SupervisorRuns {
  import opened Order
  import opened Supervision

  type History = seq<real>

  datatype World = World(views: Views, hist: map<string, History>)

  datatype Tick = Tick(obs: string -> Obs, now: real)

  predicate SpawnsNow(views: Views, agents: seq<string>, nick: string, o: Obs, now: real, cfg: Config, dryRun: bool)
    requires nick in views
  {
    VerdictFor(views, agents, nick, o, now, cfg) == Start && Spawns(o, dryRun)
  }

  function HistoryOf(w: World, nick: string): History { if nick in w.hist then w.hist[nick] else [] }

  function StepWorld(w: World, agents: seq<string>, nick: string, o: Obs, now: real, cfg: Config, dryRun: bool): World
    requires nick in w.views
  {
    World(StepNick(w.views, agents, nick, o, now, cfg, dryRun),
          if SpawnsNow(w.views, agents, nick, o, now, cfg, dryRun)
          then w.hist[nick := HistoryOf(w, nick) + [now]] else w.hist)
  }

  function SweepWorld(w: World, agents: seq<string>, nicks: seq<string>, t: Tick, cfg: Config, dryRun: bool): (r: World)
    requires forall n :: n in nicks ==> n in w.views
    ensures r.views.Keys == w.views.Keys
    decreases |nicks|
  {
    if nicks == [] then w
    else
      assert forall n :: n in nicks[1..] ==> n in nicks;
      SweepWorld(StepWorld(w, agents, nicks[0], t.obs(nicks[0]), t.now, cfg, dryRun), agents, nicks[1..], t, cfg,
        dryRun)
  }

  function RunWorld(w: World, agents: seq<string>, ticks: seq<Tick>, cfg: Config, dryRun: bool): (r: World)
    requires forall n :: n in agents ==> n in w.views
    ensures r.views.Keys == w.views.Keys
    decreases |ticks|
  {
    if ticks == [] then w
    else RunWorld(SweepWorld(w, agents, agents, ticks[0], cfg, dryRun), agents, ticks[1..], cfg, dryRun)
  }

  /** The bookkeeping on top changes nothing: the views are those of `Supervisor.Tick`. */
  lemma {:induction false} WorldFollowsSweep(w: World, p: Pass, agents: seq<string>, nicks: seq<string>, t: Tick,
                                             cfg: Config, dryRun: bool)
    requires w.views == p.views && forall n :: n in nicks ==> n in w.views
    ensures SweepWorld(w, agents, nicks, t, cfg, dryRun).views ==
      Sweep(p, agents, nicks, t.obs, t.now, cfg, dryRun).views
    decreases |nicks|
  {
    if nicks != [] {
      assert forall n :: n in nicks[1..] ==> n in nicks;
      var next := Pass(StepNick(p.views, agents, nicks[0], t.obs(nicks[0]), t.now, cfg, dryRun),
                       p.verdicts + [VerdictFor(p.views, agents, nicks[0], t.obs(nicks[0]), t.now, cfg)]);
      WorldFollowsSweep(StepWorld(w, agents, nicks[0], t.obs(nicks[0]), t.now, cfg, dryRun), next, agents,
        nicks[1..], t, cfg, dryRun);
    }
  }

  // ----- the spawn rate of one nick -----

  ghost predicate Ascending(h: History) { forall i, j :: 0 <= i < j < |h| ==> h[i] <= h[j] }

  /** Spawns `max` or more places apart are at least one full window apart. */
  ghost predicate Spaced(h: History, max: nat) {
    forall i, j :: 0 <= i && i + max <= j < |h| ==> h[j] - h[i] >= RATE_WINDOW_SECONDS
  }

  ghost predicate Gapped(h: History, gap: real) {
    forall i, j :: 0 <= i < j < |h| ==> h[j] - h[i] >= gap
  }

  ghost predicate SpawnsFit(h: History, now: real, cfg: Config) {
    && Ascending(h) && (forall i :: 0 <= i < |h| ==> h[i] <= now)
    && Spaced(h, cfg.maxStartsPerHour) && Gapped(h, Min(cfg.cooldown, RATE_WINDOW_SECONDS))
  }

  /** `starts` is the recent end of the full history. */
  ghost predicate RecentEnd(starts: History, h: History, now: real) {
    && |starts| <= |h| && starts == h[|h| - |starts|..]
    && forall i :: 0 <= i < |h| - |starts| ==> now - h[i] >= RATE_WINDOW_SECONDS
  }

  ghost predicate RateInv(starts: History, h: History, now: real, cfg: Config) {
    SpawnsFit(h, now, cfg) && RecentEnd(starts, h, now)
  }

  lemma {:induction false} RecentIsSuffix(s: History, now: real)
    requires Ascending(s)
    ensures
      var kept := Filter(Recent(now), s);
      && |kept| <= |s| && kept == s[|s| - |kept|..]
      && forall i :: 0 <= i < |s| - |kept| ==> now - s[i] >= RATE_WINDOW_SECONDS
  {
    if s == [] {
    } else if Recent(now)(s[0]) {
      forall x | x in s ensures Recent(now)(x) {
        var i :| 0 <= i < |s| && s[i] == x;
        assert s[0] <= s[i];
      }
      FilterAll(Recent(now), s);
    } else {
      RecentIsSuffix(s[1..], now);
      var kept := Filter(Recent(now), s);
      assert s[1..][|s| - 1 - |kept|..] == s[|s| - |kept|..];
      forall i | 0 <= i < |s| - |kept| ensures now - s[i] >= RATE_WINDOW_SECONDS {
        assert i > 0 ==> s[i] == s[1..][i - 1];
      }
    }
  }

  lemma PruneKeepsRate(starts: History, h: History, now: real, now': real, cfg: Config)
    requires RateInv(starts, h, now, cfg) && now <= now'
    ensures RateInv(Filter(Recent(now'), starts), h, now', cfg)
  {
    var k := |h| - |starts|;
    RecentIsSuffix(starts, now');
    var kept := Filter(Recent(now'), starts);
    assert starts[|starts| - |kept|..] == h[|h| - |kept|..];
    forall i | 0 <= i < |h| - |kept| ensures now' - h[i] >= RATE_WINDOW_SECONDS {
      assert i >= k ==> h[i] == starts[i - k];
    }
  }

  lemma SpawnKeepsEnd(starts: History, h: History, now: real)
    requires RecentEnd(starts, h, now)
    ensures RecentEnd(starts + [now], h + [now], now)
  {
    assert starts + [now] == (h + [now])[|h| - |starts|..];
  }

  lemma SpawnKeepsFit(starts: History, h: History, now: real, cfg: Config)
    requires cfg.Valid() && SpawnsFit(h, now, cfg) && RecentEnd(starts, h, now)
    requires starts == [] || now - starts[|starts| - 1] >= cfg.cooldown
    requires |starts| < cfg.maxStartsPerHour
    ensures SpawnsFit(h + [now], now, cfg)
  {
    var g, gap := h + [now], Min(cfg.cooldown, RATE_WINDOW_SECONDS);
    forall i | 0 <= i < |h| ensures now - h[i] >= gap {
      if i >= |h| - |starts| {
        assert h[|h| - 1] == starts[|starts| - 1];
        assert h[i] <= h[|h| - 1];
      }
    }
    forall i, j | 0 <= i < j < |g| ensures g[j] - g[i] >= gap {
      assert g[i] == h[i];
    }
    forall i, j | 0 <= i && i + cfg.maxStartsPerHour <= j < |g| ensures g[j] - g[i] >= RATE_WINDOW_SECONDS {
      assert g[i] == h[i];
    }
  }

  lemma PrunedTwice(s: History, now: real)
    ensures Filter(Recent(now), Filter(Recent(now), s)) == Filter(Recent(now), s)
  {
    FilterElements(Recent(now), s);
    FilterAll(Recent(now), Filter(Recent(now), s));
  }

  /** What `Start` says about a pruned start list. */
  lemma StartAllowed(s: History, v: NickView, mail: nat, live: bool, now: real, cfg: Config, concurrent: nat)
    requires v.starts == Filter(Recent(now), s) && Decide(v, mail, live, now, cfg, concurrent) == Start
    ensures v.starts == [] || now - v.starts[|v.starts| - 1] >= cfg.cooldown
    ensures |v.starts| < cfg.maxStartsPerHour
  {
    PrunedTwice(s, now);
  }

  lemma SettledStarts(v: NickView, o: Obs, now: real, cfg: Config)
    ensures Settled(v, o, now, cfg).starts == Filter(Recent(now), v.starts)
  {
  }

  /** One nick's pass keeps the rate invariant, whatever the rest of the fleet does. */
  lemma StepKeepsRate(w: World, agents: seq<string>, nick: string, o: Obs, now: real, now': real, cfg: Config,
                      dryRun: bool)
    requires nick in w.views && cfg.Valid() && now <= now'
    requires RateInv(w.views[nick].starts, HistoryOf(w, nick), now, cfg)
    ensures
      var w' := StepWorld(w, agents, nick, o, now', cfg, dryRun);
      RateInv(w'.views[nick].starts, HistoryOf(w', nick), now', cfg)
  {
    var h, was := HistoryOf(w, nick), w.views[nick].starts;
    var v := Settled(w.views[nick], o, now', cfg);
    var w' := StepWorld(w, agents, nick, o, now', cfg, dryRun);
    SettledStarts(w.views[nick], o, now', cfg);
    PruneKeepsRate(was, h, now, now', cfg);
    if SpawnsNow(w.views, agents, nick, o, now', cfg, dryRun) {
      StartAllowed(was, v, if Counted(v, o) then o.mail else 0, o.live, now', cfg,
                   InFlightCount(w.views[nick := v], agents));
      SpawnKeepsEnd(v.starts, h, now');
      SpawnKeepsFit(v.starts, h, now', cfg);
      assert w'.views[nick].starts == v.starts + [now'] && HistoryOf(w', nick) == h + [now'];
    } else {
      assert w'.views[nick].starts == v.starts && HistoryOf(w', nick) == h;
    }
  }

  function InWindow(from: real): real -> bool { (t: real) => from <= t < from + RATE_WINDOW_SECONDS }

  lemma {:induction false} SkippedNotCounted(h: History, from: real, z: nat)
    requires z <= |h| && forall i :: 0 <= i < z ==> !InWindow(from)(h[i])
    ensures |Filter(InWindow(from), h)| <= |h| - z
  {
    FilterElements(InWindow(from), h);
    if z > 0 {
      SkippedNotCounted(h[1..], from, z - 1);
    }
  }

  /** A spaced history has at most `max` spawns in any half-open window. */
  lemma {:induction false} WindowBound(h: History, max: nat, from: real)
    requires Ascending(h) && Spaced(h, max)
    ensures |Filter(InWindow(from), h)| <= max
  {
    if h == [] {
    } else {
      var n := |h| - 1;
      assert h == h[..n] + [h[n]];
      FilterAppend(InWindow(from), h[..n], [h[n]]);
      if InWindow(from)(h[n]) {
        var z := if n + 1 <= max then 0 else n + 1 - max;
        forall i | 0 <= i < z ensures !InWindow(from)(h[i]) {
          assert h[n] - h[i] >= RATE_WINDOW_SECONDS;
        }
        SkippedNotCounted(h, from, z);
      } else {
        WindowBound(h[..n], max, from);
      }
    }
  }

  // ----- failures, parking and time in flight -----

  /** Bookkeeping of the breaker. `everLive` says whether the nick was ever seen live. */
  ghost predicate BreakerInv(v: NickView, h: History, cfg: Config, everLive: bool) {
    && (v.parked ==> v.awaiting == 0.0)
    && (!v.parked ==> v.failures < cfg.maxFailures)
    && v.failures <= cfg.maxFailures
    && (!everLive ==> |h| <= v.failures + if v.awaiting != 0.0 then 1 else 0)
  }

  lemma StepKeepsBreaker(w: World, agents: seq<string>, nick: string, o: Obs, now: real, cfg: Config, dryRun: bool,
                         everLive: bool)
    requires nick in w.views && cfg.Valid() && now > 0.0
    requires BreakerInv(w.views[nick], HistoryOf(w, nick), cfg, everLive)
    ensures
      var w' := StepWorld(w, agents, nick, o, now, cfg, dryRun);
      && BreakerInv(w'.views[nick], HistoryOf(w', nick), cfg, everLive || o.live)
      && (w.views[nick].parked ==> w'.views[nick].parked && HistoryOf(w', nick) == HistoryOf(w, nick))
      && (w'.views[nick].awaiting != 0.0 ==> now - w'.views[nick].awaiting <= cfg.startTimeout)
  {
  }

  // ----- concurrency -----

  lemma {:induction false} CountAfterChange(views: Views, nicks: seq<string>, n: string, v: NickView)
    requires n in views && Distinct(nicks)
    ensures
      var before, after := InFlightCount(views, nicks), InFlightCount(views[n := v], nicks);
      if n in nicks && v.awaiting != 0.0 && views[n].awaiting == 0.0 then after == before + 1
      else after <= before
    ensures n !in nicks ==> InFlightCount(views, nicks) == InFlightCount(views[n := v], nicks)
  {
    if nicks != [] {
      CountAfterChange(views, nicks[1..], n, v);
      assert nicks == [nicks[0]] + nicks[1..];
    }
  }

  /** At any point inside a pass at most `maxConcurrent` nicks are in flight. */
  lemma StepKeepsConcurrency(views: Views, agents: seq<string>, nick: string, o: Obs, now: real, cfg: Config,
                             dryRun: bool)
    requires nick in views && Distinct(agents)
    requires InFlightCount(views, agents) <= cfg.maxConcurrent
    ensures InFlightCount(views[nick := Settled(views[nick], o, now, cfg)], agents) <= cfg.maxConcurrent
    ensures InFlightCount(StepNick(views, agents, nick, o, now, cfg, dryRun), agents) <= cfg.maxConcurrent
  {
    var v := Settled(views[nick], o, now, cfg);
    var settled := views[nick := v];
    CountAfterChange(views, agents, nick, v);
    if VerdictFor(views, agents, nick, o, now, cfg) == Start {
      CountAfterChange(settled, agents, nick, Started(v, o, now, cfg, dryRun));
      assert settled[nick := Started(v, o, now, cfg, dryRun)] == StepNick(views, agents, nick, o, now, cfg, dryRun);
    }
  }

  // ----- whole runs -----

  ghost predicate NickInv(v: NickView, h: History, now: real, cfg: Config) {
    RateInv(v.starts, h, now, cfg) && BreakerInv(v, h, cfg, true)
  }

  ghost predicate FleetInv(w: World, agents: seq<string>, now: real, cfg: Config) {
    && Distinct(agents)
    && (forall n :: n in agents ==> n in w.views && NickInv(w.views[n], HistoryOf(w, n), now, cfg))
    && InFlightCount(w.views, agents) <= cfg.maxConcurrent
  }

  lemma TimePasses(v: NickView, h: History, now: real, now': real, cfg: Config)
    requires NickInv(v, h, now, cfg) && now <= now'
    ensures NickInv(v, h, now', cfg)
  {
  }

  lemma FleetAges(w: World, agents: seq<string>, now: real, now': real, cfg: Config)
    requires FleetInv(w, agents, now, cfg) && now <= now'
    ensures FleetInv(w, agents, now', cfg)
  {
    forall n | n in agents ensures n in w.views && NickInv(w.views[n], HistoryOf(w, n), now', cfg) {
      TimePasses(w.views[n], HistoryOf(w, n), now, now', cfg);
    }
  }

  lemma StepLeavesOthers(w: World, agents: seq<string>, nick: string, o: Obs, now: real, cfg: Config, dryRun: bool,
                         n: string)
    requires nick in w.views && n in w.views && n != nick
    ensures
      var w' := StepWorld(w, agents, nick, o, now, cfg, dryRun);
      w'.views[n] == w.views[n] && HistoryOf(w', n) == HistoryOf(w, n)
  {
  }

  lemma StepKeepsNick(w: World, agents: seq<string>, nick: string, o: Obs, now: real, cfg: Config, dryRun: bool,
                      n: string)
    requires cfg.Valid() && 0.0 < now && nick in w.views && n in w.views &&
      NickInv(w.views[n], HistoryOf(w, n), now, cfg)
    ensures
      var w' := StepWorld(w, agents, nick, o, now, cfg, dryRun);
      n in w'.views && NickInv(w'.views[n], HistoryOf(w', n), now, cfg)
  {
    if n == nick {
      StepKeepsRate(w, agents, nick, o, now, now, cfg, dryRun);
      StepKeepsBreaker(w, agents, nick, o, now, cfg, dryRun, true);
    } else {
      StepLeavesOthers(w, agents, nick, o, now, cfg, dryRun, n);
    }
  }

  lemma StepKeepsFleet(w: World, agents: seq<string>, nick: string, o: Obs, now: real, cfg: Config, dryRun: bool)
    requires cfg.Valid() && FleetInv(w, agents, now, cfg) && 0.0 < now && nick in agents
    ensures FleetInv(StepWorld(w, agents, nick, o, now, cfg, dryRun), agents, now, cfg)
  {
    var w' := StepWorld(w, agents, nick, o, now, cfg, dryRun);
    forall n | n in agents ensures n in w'.views && NickInv(w'.views[n], HistoryOf(w', n), now, cfg) {
      StepKeepsNick(w, agents, nick, o, now, cfg, dryRun, n);
    }
    StepKeepsConcurrency(w.views, agents, nick, o, now, cfg, dryRun);
  }

  lemma {:induction false} SweepKeeps(w: World, agents: seq<string>, nicks: seq<string>, t: Tick, now: real,
                                      cfg: Config, dryRun: bool)
    requires cfg.Valid() && FleetInv(w, agents, now, cfg) && 0.0 < t.now && now <= t.now
    requires forall n :: n in nicks ==> n in agents
    ensures forall n :: n in nicks ==> n in w.views
    ensures FleetInv(SweepWorld(w, agents, nicks, t, cfg, dryRun), agents, t.now, cfg)
    decreases |nicks|
  {
    FleetAges(w, agents, now, t.now, cfg);
    if nicks != [] {
      assert forall n :: n in nicks[1..] ==> n in nicks;
      StepKeepsFleet(w, agents, nicks[0], t.obs(nicks[0]), t.now, cfg, dryRun);
      SweepKeeps(StepWorld(w, agents, nicks[0], t.obs(nicks[0]), t.now, cfg, dryRun), agents, nicks[1..], t, t.now,
        cfg, dryRun);
    }
  }

  ghost predicate ClockForward(ticks: seq<Tick>, from: real) {
    && (forall i :: 0 <= i < |ticks| ==> ticks[i].now > 0.0 && from <= ticks[i].now)
    && (forall i, j :: 0 <= i < j < |ticks| ==> ticks[i].now <= ticks[j].now)
  }

  lemma {:induction false} RunKeeps(w: World, agents: seq<string>, ticks: seq<Tick>, from: real, end: real,
                                    cfg: Config, dryRun: bool) returns (now: real)
    requires cfg.Valid() && FleetInv(w, agents, from, cfg) && ClockForward(ticks, from) && from <= end
    requires forall i :: 0 <= i < |ticks| ==> ticks[i].now <= end
    ensures FleetInv(RunWorld(w, agents, ticks, cfg, dryRun), agents, now, cfg) && now <= end
    decreases |ticks|
  {
    if ticks == [] {
      now := from;
    } else {
      SweepKeeps(w, agents, agents, ticks[0], from, cfg, dryRun);
      now := RunKeeps(SweepWorld(w, agents, agents, ticks[0], cfg, dryRun), agents, ticks[1..], ticks[0].now, end,
        cfg, dryRun);
    }
  }

  ghost predicate JustStarted(w: World, agents: seq<string>) {
    && w.hist == map[] && (forall n :: n in agents <==> n in w.views)
    && Distinct(agents)
    && forall n :: n in w.views ==> w.views[n] == NickView([], 0, false, 0.0, false)
  }

  lemma {:induction false} NoneWaiting(views: Views, nicks: seq<string>)
    requires forall n :: n in views ==> views[n].awaiting == 0.0
    ensures InFlightCount(views, nicks) == 0
  {
    if nicks != [] {
      NoneWaiting(views, nicks[1..]);
    }
  }

  /** Spawn-rate bound: in every run with a forward clock, any half-open 3600-second window
      holds at most `maxStartsPerHour` spawns of a nick, and two spawns in a row are at
      least min(cooldown, 3600) apart. */
  lemma SpawnRateBound(w: World, agents: seq<string>, ticks: seq<Tick>, cfg: Config, dryRun: bool, nick: string,
                       from: real)
    requires cfg.Valid() && JustStarted(w, agents) && ClockForward(ticks, 0.0) && nick in agents
    ensures
      var h := HistoryOf(RunWorld(w, agents, ticks, cfg, dryRun), nick);
      && |Filter(InWindow(from), h)| <= cfg.maxStartsPerHour
      && Gapped(h, Min(cfg.cooldown, RATE_WINDOW_SECONDS))
  {
    NoneWaiting(w.views, agents);
    var end := if ticks == [] then 0.0 else ticks[|ticks| - 1].now;
    var now := RunKeeps(w, agents, ticks, 0.0, end, cfg, dryRun);
    WindowBound(HistoryOf(RunWorld(w, agents, ticks, cfg, dryRun), nick), cfg.maxStartsPerHour, from);
  }

  /** Parking and the concurrency cap hold at every point of every run: after any ticks and
      any part of the next one, at most `maxConcurrent` nicks are in flight and a parked
      nick is not among them. */
  lemma CapAndBreakerHold(w: World, agents: seq<string>, ticks: seq<Tick>, t: Tick, k: nat, cfg: Config, dryRun: bool)
    requires cfg.Valid() && JustStarted(w, agents) && ClockForward(ticks + [t], 0.0) && k <= |agents|
    ensures
      var w1 := RunWorld(w, agents, ticks, cfg, dryRun);
      && (forall n :: n in agents[..k] ==> n in w1.views)
      && var mid := SweepWorld(w1, agents, agents[..k], t, cfg, dryRun);
      && InFlightCount(mid.views, agents) <= cfg.maxConcurrent
      && forall n :: n in agents && mid.views[n].parked ==> mid.views[n].awaiting == 0.0
  {
    NoneWaiting(w.views, agents);
    assert (ticks + [t])[|ticks|] == t;
    assert forall i :: 0 <= i < |ticks| ==> (ticks + [t])[i] == ticks[i];
    var now := RunKeeps(w, agents, ticks, 0.0, t.now, cfg, dryRun);
    SweepKeeps(RunWorld(w, agents, ticks, cfg, dryRun), agents, agents[..k], t, now, cfg, dryRun);
  }

  // ----- one nick over a run -----

  lemma {:induction false} SweepOthers(w: World, agents: seq<string>, nicks: seq<string>, t: Tick, cfg: Config,
                                       dryRun: bool, nick: string)
    requires (forall n :: n in nicks ==> n in w.views) && nick in w.views && nick !in nicks
    ensures
      var w' := SweepWorld(w, agents, nicks, t, cfg, dryRun);
      w'.views[nick] == w.views[nick] && HistoryOf(w', nick) == HistoryOf(w, nick)
    decreases |nicks|
  {
    if nicks != [] {
      assert forall n :: n in nicks[1..] ==> n in nicks;
      SweepOthers(StepWorld(w, agents, nicks[0], t.obs(nicks[0]), t.now, cfg, dryRun), agents, nicks[1..], t, cfg,
        dryRun, nick);
    }
  }

  /** Inside a sweep a nick takes exactly one step. */
  lemma {:induction false} SweepOneNick(w: World, agents: seq<string>, nicks: seq<string>, t: Tick, cfg: Config,
                                        dryRun: bool, nick: string, everLive: bool)
    requires cfg.Valid() && t.now > 0.0 && (forall n :: n in nicks ==> n in w.views) && nick in nicks
    requires Distinct(nicks)
    requires BreakerInv(w.views[nick], HistoryOf(w, nick), cfg, everLive)
    ensures
      var w' := SweepWorld(w, agents, nicks, t, cfg, dryRun);
      && BreakerInv(w'.views[nick], HistoryOf(w', nick), cfg, everLive || t.obs(nick).live)
      && (w.views[nick].parked ==> w'.views[nick].parked && HistoryOf(w', nick) == HistoryOf(w, nick))
      && (w'.views[nick].awaiting != 0.0 ==> t.now - w'.views[nick].awaiting <= cfg.startTimeout)
    decreases |nicks|
  {
    assert forall n :: n in nicks[1..] ==> n in nicks;
    var w1 := StepWorld(w, agents, nicks[0], t.obs(nicks[0]), t.now, cfg, dryRun);
    if nicks[0] == nick {
      StepKeepsBreaker(w, agents, nick, t.obs(nick), t.now, cfg, dryRun, everLive);
      SweepOthers(w1, agents, nicks[1..], t, cfg, dryRun, nick);
    } else {
      assert nick in nicks[1..];
      SweepOneNick(w1, agents, nicks[1..], t, cfg, dryRun, nick, everLive);
    }
  }

  /** The breaker over a run: a nick never seen live is spawned at most `maxFailures` times
      ever, and once parked it stays parked and is never spawned again. */
  lemma {:induction false} BreakerOverRun(w: World, agents: seq<string>, ticks: seq<Tick>, cfg: Config, dryRun: bool,
                                          nick: string, everLive: bool)
    requires cfg.Valid() && ClockForward(ticks, 0.0) && nick in agents
    requires Distinct(agents) && forall n :: n in agents ==> n in w.views
    requires BreakerInv(w.views[nick], HistoryOf(w, nick), cfg, everLive)
    ensures
      var w' := RunWorld(w, agents, ticks, cfg, dryRun);
      && (w.views[nick].parked ==> w'.views[nick].parked && HistoryOf(w', nick) == HistoryOf(w, nick))
      && (!everLive && (forall i :: 0 <= i < |ticks| ==> !ticks[i].obs(nick).live) ==>
            |HistoryOf(w', nick)| <= cfg.maxFailures)
    decreases |ticks|
  {
    if ticks != [] {
      SweepOneNick(w, agents, agents, ticks[0], cfg, dryRun, nick, everLive);
      BreakerOverRun(SweepWorld(w, agents, agents, ticks[0], cfg, dryRun), agents, ticks[1..], cfg, dryRun, nick,
                     everLive || ticks[0].obs(nick).live);
    }
  }

  /** From a fresh supervisor: at most `maxFailures` spawns of a nick nobody ever saw live. */
  lemma NeverLiveBound(w: World, agents: seq<string>, ticks: seq<Tick>, cfg: Config, dryRun: bool, nick: string)
    requires cfg.Valid() && JustStarted(w, agents) && ClockForward(ticks, 0.0) && nick in agents
    requires forall i :: 0 <= i < |ticks| ==> !ticks[i].obs(nick).live
    ensures |HistoryOf(RunWorld(w, agents, ticks, cfg, dryRun), nick)| <= cfg.maxFailures
  {
    BreakerOverRun(w, agents, ticks, cfg, dryRun, nick, false);
  }

  /** No start older than the timeout is still in flight after a tick, in any run. */
  lemma NothingOverdue(w: World, agents: seq<string>, ticks: seq<Tick>, t: Tick, cfg: Config, dryRun: bool,
                       nick: string)
    requires cfg.Valid() && JustStarted(w, agents) && ClockForward(ticks + [t], 0.0) && nick in agents
    ensures
      var v := SweepWorld(RunWorld(w, agents, ticks, cfg, dryRun), agents, agents, t, cfg, dryRun).views[nick];
      v.awaiting != 0.0 ==> t.now - v.awaiting <= cfg.startTimeout
  {
    NoneWaiting(w.views, agents);
    assert (ticks + [t])[|ticks|] == t;
    assert forall i :: 0 <= i < |ticks| ==> (ticks + [t])[i] == ticks[i];
    var now := RunKeeps(w, agents, ticks, 0.0, t.now, cfg, dryRun);
    SweepOneNick(RunWorld(w, agents, ticks, cfg, dryRun), agents, agents, t, cfg, dryRun, nick, true);
  }

  // ----- who is never parked -----

  /** A start in flight is doing well: the nick is live, or its child is still running and has
      time left. */
  predicate OnItsWay(v: NickView, o: Obs, now: real, cfg: Config) {
    v.awaiting != 0.0 ==> o.live || (!o.exited && now - v.awaiting <= cfg.startTimeout)
  }

  /** Launches work, and whoever is waited for is live by the time the timeout is over. */
  ghost predicate Healthy(w: World, agents: seq<string>, ticks: seq<Tick>, cfg: Config, dryRun: bool, nick: string)
    requires (forall n :: n in agents ==> n in w.views) && nick in agents
    decreases |ticks|
  {
    ticks == [] || (
      var o := ticks[0].obs(nick);
      && o.specOk && o.spawnOk && OnItsWay(w.views[nick], o, ticks[0].now, cfg)
      && Healthy(SweepWorld(w, agents, agents, ticks[0], cfg, dryRun), agents, ticks[1..], cfg, dryRun, nick))
  }

  lemma {:induction false} HealthySweep(w: World, agents: seq<string>, nicks: seq<string>, t: Tick, cfg: Config,
                                        dryRun: bool, nick: string)
    requires cfg.Valid() && Distinct(nicks) && (forall n :: n in nicks ==> n in w.views) && nick in nicks
    requires t.obs(nick).specOk && t.obs(nick).spawnOk && OnItsWay(w.views[nick], t.obs(nick), t.now, cfg)
    requires !w.views[nick].parked && w.views[nick].failures == 0
    ensures
      var v := SweepWorld(w, agents, nicks, t, cfg, dryRun).views[nick];
      !v.parked && v.failures == 0
    decreases |nicks|
  {
    assert forall n :: n in nicks[1..] ==> n in nicks;
    var w1 := StepWorld(w, agents, nicks[0], t.obs(nicks[0]), t.now, cfg, dryRun);
    if nicks[0] == nick {
      SweepOthers(w1, agents, nicks[1..], t, cfg, dryRun, nick);
    } else {
      assert nick in nicks[1..];
      HealthySweep(w1, agents, nicks[1..], t, cfg, dryRun, nick);
    }
  }

  /** The breaker never trips for a nick whose starts come up within the timeout, however often
      it is started and however many passes that takes. */
  lemma {:induction false} HealthyNeverParked(w: World, agents: seq<string>, ticks: seq<Tick>, cfg: Config,
                                              dryRun: bool, nick: string)
    requires cfg.Valid() && Distinct(agents) && (forall n :: n in agents ==> n in w.views) && nick in agents
    requires !w.views[nick].parked && w.views[nick].failures == 0 && Healthy(w, agents, ticks, cfg, dryRun, nick)
    ensures !RunWorld(w, agents, ticks, cfg, dryRun).views[nick].parked
    decreases |ticks|
  {
    if ticks != [] {
      HealthySweep(w, agents, agents, ticks[0], cfg, dryRun, nick);
      HealthyNeverParked(SweepWorld(w, agents, agents, ticks[0], cfg, dryRun), agents, ticks[1..], cfg, dryRun, nick);
    }
  }

  // ----- the cooldown -----

  /** In every run of a fresh supervisor, starts of a nick are the cooldown apart. */
  ghost predicate CooldownKept(cfg: Config) {
    forall w, agents, ticks, nick ::
      JustStarted(w, agents) && ClockForward(ticks, 0.0) && nick in agents ==>
        Gapped(HistoryOf(RunWorld(w, agents, ticks, cfg, false), nick), cfg.cooldown)
  }

  const LATER := 1.0 + RATE_WINDOW_SECONDS

  const WORKING := Obs(false, false, 1, true, true)

  const FRESH := NickView([], 0, false, 0.0, false)

  /** One nick: mail at 1.0 starts it, at 2.0 it is live, and one window later it is gone and
      has mail again. */
  function TwoStarts(): seq<Tick> {
    [Tick(_ => WORKING, 1.0), Tick(_ => Obs(true, false, 0, true, true), 2.0), Tick(_ => WORKING, LATER)]
  }

  /** A sweep of a fleet of one is that nick's turn. */
  lemma SweepOfOne(w: World, t: Tick, cfg: Config)
    requires "a" in w.views
    ensures SweepWorld(w, ["a"], ["a"], t, cfg, false) == StepWorld(w, ["a"], "a", t.obs("a"), t.now, cfg, false)
  {
    assert ["a"][1..] == [];
  }

  lemma StartsIfFree(w: World, v: NickView, now: real, cfg: Config)
    requires cfg.Valid() && w.views == map["a" := v] && !v.parked && v.awaiting == 0.0 && now > 0.0
    requires Filter(Recent(now), v.starts) == []
    ensures
      var w' := StepWorld(w, ["a"], "a", WORKING, now, cfg, false);
      && w'.views == map["a" := NickView([now], v.failures, true, now, false)]
      && HistoryOf(w', "a") == HistoryOf(w, "a") + [now]
  {
    var settled := Settled(v, WORKING, now, cfg);
    assert settled.starts == [] && InFlightCount(w.views["a" := settled], ["a"]) == 0 by {
      assert ["a"][1..] == [];
    }
    assert [] + [now] == [now] && settled == v.(starts := []);
    assert w.views["a" := Started(settled, WORKING, now, cfg, false)] ==
      map["a" := Started(settled, WORKING, now, cfg, false)];
  }

  lemma LiveSettles(w: World, v: NickView, now: real, cfg: Config)
    requires cfg.Valid() && w.views == map["a" := v] && v == NickView([1.0], 0, true, 1.0, false) && now == 2.0
    ensures
      var o := Obs(true, false, 0, true, true);
      StepWorld(w, ["a"], "a", o, now, cfg, false) == World(map["a" := NickView([1.0], 0, true, 0.0, false)], w.hist)
  {
    assert Filter(Recent(2.0), [1.0]) == [1.0] + Filter(Recent(2.0), [1.0][1..]) == [1.0];
  }

  lemma TwoStartsInOneWindow(w: World, cfg: Config)
    requires cfg.Valid() && w == World(map["a" := FRESH], map[])
    ensures HistoryOf(RunWorld(w, ["a"], TwoStarts(), cfg, false), "a") == [1.0, LATER]
  {
    var ticks := TwoStarts();
    SweepOfOne(w, ticks[0], cfg);
    StartsIfFree(w, FRESH, 1.0, cfg);
    var w1 := SweepWorld(w, ["a"], ["a"], ticks[0], cfg, false);
    SweepOfOne(w1, ticks[1], cfg);
    LiveSettles(w1, NickView([1.0], 0, true, 1.0, false), 2.0, cfg);
    var w2 := SweepWorld(w1, ["a"], ["a"], ticks[1], cfg, false);
    SweepOfOne(w2, ticks[2], cfg);
    assert Filter(Recent(LATER), [1.0]) == Filter(Recent(LATER), [1.0][1..]) == [];
    StartsIfFree(w2, NickView([1.0], 0, true, 0.0, false), LATER, cfg);
    var w3 := SweepWorld(w2, ["a"], ["a"], ticks[2], cfg, false);
    assert ticks[1..][1..] == [ticks[2]] && [ticks[2]][1..] == [];
    assert RunWorld(w, ["a"], ticks, cfg, false) == RunWorld(w1, ["a"], ticks[1..], cfg, false)
      == RunWorld(w2, ["a"], ticks[1..][1..], cfg, false) == RunWorld(w3, ["a"], [], cfg, false) == w3;
  }

  /** The minimum in the gap bound is needed: pruning forgets the last start after one window,
      so a cooldown is kept over every run exactly when it is no longer than the window. */
  lemma CooldownKeptIff(cfg: Config)
    requires cfg.Valid()
    ensures CooldownKept(cfg) <==> cfg.cooldown <= RATE_WINDOW_SECONDS
  {
    if cfg.cooldown <= RATE_WINDOW_SECONDS {
      forall w, agents, ticks, nick | JustStarted(w, agents) && ClockForward(ticks, 0.0) && nick in agents
        ensures Gapped(HistoryOf(RunWorld(w, agents, ticks, cfg, false), nick), cfg.cooldown)
      {
        SpawnRateBound(w, agents, ticks, cfg, false, nick, 0.0);
      }
    } else {
      var w := World(map["a" := FRESH], map[]);
      TwoStartsInOneWindow(w, cfg);
      assert JustStarted(w, ["a"]) && ClockForward(TwoStarts(), 0.0);
      var h := HistoryOf(RunWorld(w, ["a"], TwoStarts(), cfg, false), "a");
      assert h[1] - h[0] < cfg.cooldown;
    }
  }
}
