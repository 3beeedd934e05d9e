/** That the supervisor keeps trying, and stops: a nick with mail whose starts never come up
    is started once in every round until it is parked (supervisor.py). */
module SupervisorProgress {
  import opened Order
  import opened Supervision
  import opened SupervisorRuns

  /** The longest any gate holds a nick back after a start: its cooldown or the wait for the
      start, and an hour only where the hourly ceiling lies below the failures allowed. */
  function Bound(cfg: Config): real {
    var gap := Min(cfg.cooldown, RATE_WINDOW_SECONDS);
    var longer := if gap < cfg.startTimeout then cfg.startTimeout else gap;
    if cfg.maxFailures <= cfg.maxStartsPerHour || RATE_WINDOW_SECONDS < longer then longer else RATE_WINDOW_SECONDS
  }

  /** How many ticks lie more than `bound` after the one counted before, from `last` on. */
  function Marks(ticks: seq<Tick>, last: real, bound: real): nat {
    if ticks == [] then 0
    else if ticks[0].now - last > bound then Marks(ticks[1..], ticks[0].now, bound) + 1
    else Marks(ticks[1..], last, bound)
  }

  /** The rounds of a run: its first tick, and then each that lies more than the bound later. */
  function Rounds(ticks: seq<Tick>, cfg: Config): nat {
    if ticks == [] then 0 else Marks(ticks[1..], ticks[0].now, Bound(cfg)) + 1
  }

  /** Mail waits, nobody is live, and launching works. */
  predicate DeadObs(o: Obs) { !o.live && o.mail > 0 && o.specOk && o.spawnOk }

  /** The verdict a nick gets at its turn in a sweep. */
  function VerdictIn(w: World, agents: seq<string>, nicks: seq<string>, t: Tick, cfg: Config, nick: string): Verdict
    requires (forall n :: n in nicks ==> n in w.views) && nick in nicks
    decreases |nicks|
  {
    if nicks[0] == nick then VerdictFor(w.views, agents, nick, t.obs(nick), t.now, cfg)
    else
      assert forall n :: n in nicks[1..] ==> n in nicks;
      var next := StepWorld(w, agents, nicks[0], t.obs(nicks[0]), t.now, cfg, false);
      VerdictIn(next, agents, nicks[1..], t, cfg, nick)
  }

  /** The cap on starts in flight never holds the nick back. */
  ghost predicate NeverCapped(w: World, agents: seq<string>, ticks: seq<Tick>, cfg: Config, nick: string)
    requires (forall n :: n in agents ==> n in w.views) && nick in agents
    decreases |ticks|
  {
    ticks == [] || (
      && VerdictIn(w, agents, agents, ticks[0], cfg, nick) != TooManyInFlight
      && NeverCapped(SweepWorld(w, agents, agents, ticks[0], cfg, false), agents, ticks[1..], cfg, nick))
  }

  /** What holds of a nick never seen live whose launches work: each spawn has failed or is
      in flight, and parking comes with the last failure allowed. */
  ghost predicate DeadInv(v: NickView, h: History, now: real, cfg: Config) {
    && (forall x :: x in h ==> x <= now) && (forall x :: x in v.starts ==> x in h) && |v.starts| <= |h|
    && |h| == v.failures + (if v.awaiting != 0.0 then 1 else 0)
    && (v.awaiting != 0.0 ==> v.awaiting in h)
    && v.failures <= cfg.maxFailures && (v.parked <==> v.failures == cfg.maxFailures)
    && (v.parked ==> v.awaiting == 0.0)
  }

  /** Once all spawns lie longer back than the bound, neither limit on them binds. */
  lemma SpawnsLongAgo(v: NickView, h: History, now: real, cfg: Config)
    requires cfg.Valid() && DeadInv(v, h, now, cfg) && v.failures < cfg.maxFailures && v.awaiting == 0.0
    requires forall x :: x in v.starts ==> Recent(now)(x)
    requires forall x :: x in h ==> now - x > Bound(cfg)
    ensures v.starts == [] || now - LastStart(v) >= cfg.cooldown
    ensures |Filter(Recent(now), v.starts)| < cfg.maxStartsPerHour
  {
    FilterAll(Recent(now), v.starts);
    if v.starts != [] {
      assert LastStart(v) in v.starts;
    }
  }

  /** One turn: nothing but a spawn changes the history, and if all spawns are longer ago
      than the bound the nick is spawned or parked. */
  lemma DeadTurn(w: World, agents: seq<string>, nick: string, o: Obs, before: real, now: real, cfg: Config)
    requires nick in w.views && cfg.Valid() && before <= now && 0.0 < now && DeadObs(o)
    requires DeadInv(w.views[nick], HistoryOf(w, nick), before, cfg)
    requires VerdictFor(w.views, agents, nick, o, now, cfg) != TooManyInFlight
    ensures
      var w', h := StepWorld(w, agents, nick, o, now, cfg, false), HistoryOf(w, nick);
      && DeadInv(w'.views[nick], HistoryOf(w', nick), now, cfg)
      && (w.views[nick].parked ==> w'.views[nick].parked)
      && (HistoryOf(w', nick) == h || HistoryOf(w', nick) == h + [now])
      && ((forall x :: x in h ==> now - x > Bound(cfg)) ==> w'.views[nick].parked || HistoryOf(w', nick) == h + [now])
  {
    var v0, h := w.views[nick], HistoryOf(w, nick);
    var v := Settled(v0, o, now, cfg);
    FilterElements(Recent(now), v0.starts);
    assert DeadInv(v, h, now, cfg);
    if (forall x :: x in h ==> now - x > Bound(cfg)) && v.failures < cfg.maxFailures {
      assert v0.awaiting != 0.0 ==> now - v0.awaiting > cfg.startTimeout;
      SpawnsLongAgo(v, h, now, cfg);
    }
  }

  lemma {:induction false} DeadSweep(w: World, agents: seq<string>, nicks: seq<string>, t: Tick, before: real,
                                     cfg: Config, nick: string)
    requires cfg.Valid() && Distinct(nicks) && (forall n :: n in nicks ==> n in w.views) && nick in nicks
    requires before <= t.now && 0.0 < t.now && DeadObs(t.obs(nick))
    requires DeadInv(w.views[nick], HistoryOf(w, nick), before, cfg)
    requires VerdictIn(w, agents, nicks, t, cfg, nick) != TooManyInFlight
    ensures
      var w', h := SweepWorld(w, agents, nicks, t, cfg, false), HistoryOf(w, nick);
      && DeadInv(w'.views[nick], HistoryOf(w', nick), t.now, cfg)
      && (w.views[nick].parked ==> w'.views[nick].parked)
      && (HistoryOf(w', nick) == h || HistoryOf(w', nick) == h + [t.now])
      && ((forall x :: x in h ==> t.now - x > Bound(cfg)) ==>
            w'.views[nick].parked || HistoryOf(w', nick) == h + [t.now])
    decreases |nicks|
  {
    assert forall n :: n in nicks[1..] ==> n in nicks;
    var w1 := StepWorld(w, agents, nicks[0], t.obs(nicks[0]), t.now, cfg, false);
    if nicks[0] == nick {
      DeadTurn(w, agents, nick, t.obs(nick), before, t.now, cfg);
      SweepOthers(w1, agents, nicks[1..], t, cfg, false, nick);
    } else {
      assert nick in nicks[1..];
      StepLeavesOthers(w, agents, nicks[0], t.obs(nicks[0]), t.now, cfg, false, nick);
      DeadSweep(w1, agents, nicks[1..], t, before, cfg, nick);
    }
  }

  ghost predicate AllDead(ticks: seq<Tick>, nick: string) {
    forall i :: 0 <= i < |ticks| ==> DeadObs(ticks[i].obs(nick))
  }

  /** From the last round counted on, every further round brings a spawn until the nick is
      parked. `n` spawns are accounted for, and any later one lies after `last`. */
  lemma {:induction false} StartsFrom(w: World, agents: seq<string>, ticks: seq<Tick>, before: real, last: real, n: nat,
                                      cfg: Config, nick: string)
    requires cfg.Valid() && Distinct(agents) && (forall a :: a in agents ==> a in w.views) && nick in agents
    requires ClockForward(ticks, before) && AllDead(ticks, nick) && NeverCapped(w, agents, ticks, cfg, nick)
    requires DeadInv(w.views[nick], HistoryOf(w, nick), before, cfg)
    requires w.views[nick].parked || |HistoryOf(w, nick)| >= n
    requires |HistoryOf(w, nick)| > n || forall x :: x in HistoryOf(w, nick) ==> x <= last
    ensures
      var w' := RunWorld(w, agents, ticks, cfg, false);
      && (w'.views[nick].parked || |HistoryOf(w', nick)| >= n + Marks(ticks, last, Bound(cfg)))
      && (w'.views[nick].parked ==> |HistoryOf(w', nick)| == cfg.maxFailures)
    decreases |ticks|
  {
    if ticks != [] {
      var t := ticks[0];
      DeadSweep(w, agents, agents, t, before, cfg, nick);
      var w1 := SweepWorld(w, agents, agents, t, cfg, false);
      if t.now - last > Bound(cfg) {
        StartsFrom(w1, agents, ticks[1..], t.now, t.now, n + 1, cfg, nick);
      } else {
        StartsFrom(w1, agents, ticks[1..], t.now, last, n, cfg, nick);
      }
    }
  }

  /** Progress: a nick with mail and no live session, whose launches work, is spawned at least
      once in every round, until it is parked. */
  lemma StartsEachRound(w: World, agents: seq<string>, ticks: seq<Tick>, cfg: Config, nick: string)
    requires cfg.Valid() && JustStarted(w, agents) && ClockForward(ticks, 0.0) && nick in agents
    requires AllDead(ticks, nick) && NeverCapped(w, agents, ticks, cfg, nick)
    ensures
      var w' := RunWorld(w, agents, ticks, cfg, false);
      && (w'.views[nick].parked || |HistoryOf(w', nick)| >= Rounds(ticks, cfg))
      && (w'.views[nick].parked ==> |HistoryOf(w', nick)| == cfg.maxFailures)
  {
    var last := if ticks == [] then 0.0 else ticks[0].now - Bound(cfg) - 1.0;
    StartsFrom(w, agents, ticks, 0.0, last, 0, cfg, nick);
  }

  /** And it ends: after more rounds than failures are allowed the nick is parked, having been
      spawned exactly that many times. */
  lemma DeadNickIsParked(w: World, agents: seq<string>, ticks: seq<Tick>, cfg: Config, nick: string)
    requires cfg.Valid() && JustStarted(w, agents) && ClockForward(ticks, 0.0) && nick in agents
    requires AllDead(ticks, nick) && NeverCapped(w, agents, ticks, cfg, nick)
    requires Rounds(ticks, cfg) > cfg.maxFailures
    ensures
      var w' := RunWorld(w, agents, ticks, cfg, false);
      w'.views[nick].parked && |HistoryOf(w', nick)| == cfg.maxFailures
  {
    StartsEachRound(w, agents, ticks, cfg, nick);
    NeverLiveBound(w, agents, ticks, cfg, false, nick);
  }

  // ----- when the cap cannot bind -----

  /** Only these nicks are ever in flight, besides `nick`. */
  ghost predicate OnlyInFlight(views: Views, agents: seq<string>, nick: string, busy: set<string>) {
    forall n :: n in agents && n != nick && Waiting(views, n) ==> n in busy
  }

  /** Only these nicks, and perhaps `nick`, ever have mail. */
  ghost predicate OnlyMailed(ticks: seq<Tick>, agents: seq<string>, nick: string, busy: set<string>) {
    forall i, n :: 0 <= i < |ticks| && n in agents && n != nick && n !in busy ==> ticks[i].obs(n).mail == 0
  }

  lemma {:induction false} CountAtMost(views: Views, nicks: seq<string>, nick: string, busy: set<string>)
    requires Distinct(nicks) && OnlyInFlight(views, nicks, nick, busy) && !Waiting(views, nick)
    ensures InFlightCount(views, nicks) <= |busy|
    decreases |nicks|
  {
    if nicks != [] {
      assert nicks == [nicks[0]] + nicks[1..];
      if Waiting(views, nicks[0]) {
        forall n | n in nicks[1..] && n != nick && Waiting(views, n) ensures n in busy - {nicks[0]} {
          assert n in nicks;
        }
        CountAtMost(views, nicks[1..], nick, busy - {nicks[0]});
      } else {
        CountAtMost(views, nicks[1..], nick, busy);
      }
    }
  }

  /** A turn without mail starts nothing. */
  lemma NoMailNoStart(w: World, agents: seq<string>, n: string, o: Obs, now: real, cfg: Config)
    requires n in w.views && o.mail == 0 && !Waiting(w.views, n)
    ensures !Waiting(StepWorld(w, agents, n, o, now, cfg, false).views, n)
  {
  }

  lemma TurnKeepsIdle(w: World, agents: seq<string>, n: string, o: Obs, now: real, cfg: Config,
                      nick: string, busy: set<string>)
    requires n in w.views && OnlyInFlight(w.views, agents, nick, busy)
    requires n == nick || n in busy || o.mail == 0
    requires n in agents
    ensures OnlyInFlight(StepWorld(w, agents, n, o, now, cfg, false).views, agents, nick, busy)
  {
    if n != nick && n !in busy {
      NoMailNoStart(w, agents, n, o, now, cfg);
    }
  }

  lemma {:induction false} SweepHasRoom(w: World, agents: seq<string>, nicks: seq<string>, t: Tick, cfg: Config,
                                        nick: string, busy: set<string>)
    requires (forall n :: n in nicks ==> n in w.views && n in agents) && Distinct(agents) && |busy| < cfg.maxConcurrent
    requires OnlyInFlight(w.views, agents, nick, busy) && OnlyMailed([t], agents, nick, busy)
    ensures nick in nicks ==> VerdictIn(w, agents, nicks, t, cfg, nick) != TooManyInFlight
    ensures OnlyInFlight(SweepWorld(w, agents, nicks, t, cfg, false).views, agents, nick, busy)
    decreases |nicks|
  {
    if nicks != [] {
      assert forall n :: n in nicks[1..] ==> n in nicks;
      assert [t][0] == t;
      TurnKeepsIdle(w, agents, nicks[0], t.obs(nicks[0]), t.now, cfg, nick, busy);
      var next := StepWorld(w, agents, nicks[0], t.obs(nicks[0]), t.now, cfg, false);
      SweepHasRoom(next, agents, nicks[1..], t, cfg, nick, busy);
      if nicks[0] == nick {
        TurnHasRoom(w, agents, t, cfg, nick, busy);
      } else if nick in nicks {
        assert nicks == [nicks[0]] + nicks[1..];
      }
    }
  }

  lemma TurnHasRoom(w: World, agents: seq<string>, t: Tick, cfg: Config, nick: string, busy: set<string>)
    requires nick in w.views && Distinct(agents) && |busy| < cfg.maxConcurrent
    requires OnlyInFlight(w.views, agents, nick, busy)
    ensures VerdictFor(w.views, agents, nick, t.obs(nick), t.now, cfg) != TooManyInFlight
  {
    var v := Settled(w.views[nick], t.obs(nick), t.now, cfg);
    if v.awaiting == 0.0 {
      CountAtMost(w.views[nick := v], agents, nick, busy);
    }
  }

  /** With fewer other nicks that ever have mail than the cap allows in flight, nobody is held
      back by it: the progress above then holds for every such fleet. */
  lemma {:induction false} RoomForBusy(w: World, agents: seq<string>, ticks: seq<Tick>, cfg: Config, nick: string,
                                       busy: set<string>)
    requires (forall n :: n in agents ==> n in w.views) && nick in agents && Distinct(agents)
    requires OnlyInFlight(w.views, agents, nick, busy) && OnlyMailed(ticks, agents, nick, busy)
    requires |busy| < cfg.maxConcurrent
    ensures NeverCapped(w, agents, ticks, cfg, nick)
    decreases |ticks|
  {
    if ticks != [] {
      SweepHasRoom(w, agents, agents, ticks[0], cfg, nick, busy);
      RoomForBusy(SweepWorld(w, agents, agents, ticks[0], cfg, false), agents, ticks[1..], cfg, nick, busy);
    }
  }

  lemma {:induction false} SetOf(s: seq<string>, nick: string) returns (all: set<string>)
    requires Distinct(s)
    ensures (forall n :: n in all <==> n in s && n != nick) && |all| == if nick in s then |s| - 1 else |s|
  {
    all := {};
    if s != [] {
      assert s == [s[0]] + s[1..];
      var rest := SetOf(s[1..], nick);
      all := if s[0] == nick then rest else rest + {s[0]};
    }
  }

  /** With a cap no smaller than the fleet nobody is ever held back by it. */
  lemma RoomForAll(w: World, agents: seq<string>, ticks: seq<Tick>, cfg: Config, nick: string)
    requires (forall n :: n in agents ==> n in w.views) && nick in agents && Distinct(agents)
    requires |agents| <= cfg.maxConcurrent
    ensures NeverCapped(w, agents, ticks, cfg, nick)
  {
    var busy := SetOf(agents, nick);
    RoomForBusy(w, agents, ticks, cfg, nick, busy);
  }
}
