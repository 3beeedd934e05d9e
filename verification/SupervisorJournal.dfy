/** What the supervisor does at each turn, told from what happened before rather than from the
    state it keeps: the full list of spawns and the journal of how each attempt ended
    (supervisor.py). */
module SupervisorJournal {
  import opened Order
  import opened Supervision
  import opened SupervisorRuns

  /** A child was launched; the nick was seen live; the attempt failed. */
  datatype Event = Begun | Up | Down

  type Journal = seq<Event>

  datatype Diary = Diary(w: World, log: map<string, Journal>)

  function JournalOf(d: Diary, nick: string): Journal { if nick in d.log then d.log[nick] else [] }

  predicate InFlight(log: Journal) { log != [] && log[|log| - 1] == Begun }

  /** How many attempts in a row have failed since the nick last came up. */
  function Streak(log: Journal): nat {
    if log == [] || log[|log| - 1] == Up then 0
    else Streak(log[..|log| - 1]) + if log[|log| - 1] == Down then 1 else 0
  }

  function Last(h: History): real
    requires h != []
  {
    h[|h| - 1]
  }

  /** How a start in flight ends, if it does: seen live, else exited or waited for too long. */
  function Ends(log: Journal, h: History, o: Obs, now: real, cfg: Config): Journal {
    if !InFlight(log) || h == [] then []
    else if o.live then [Up]
    else if o.exited || now - Last(h) > cfg.startTimeout then [Down]
    else []
  }

  /** How many spawns lie less than an hour back. */
  function LastHour(h: History, now: real): nat {
    if h == [] then 0 else LastHour(h[..|h| - 1], now) + if now - Last(h) < 3600.0 then 1 else 0
  }

  function OthersInFlight(d: Diary, agents: seq<string>, nick: string): nat {
    |set n | n in agents && n != nick && InFlight(JournalOf(d, n))|
  }

  /** The rules for a start: nobody is home or on the way, mail waits, the attempts have not
      failed too often in a row, and the three limits leave room. */
  predicate MayStart(log: Journal, h: History, others: nat, o: Obs, now: real, cfg: Config) {
    && !o.live && !InFlight(log) && o.mail > 0
    && Streak(log) < cfg.maxFailures
    && (h != [] ==> now - Last(h) >= Min(cfg.cooldown, 3600.0))
    && LastHour(h, now) < cfg.maxStartsPerHour
    && others < cfg.maxConcurrent
  }

  /** A nick's journal at its turn, once the fate of a start in flight is entered. */
  function JournalAt(d: Diary, nick: string, o: Obs, now: real, cfg: Config): Journal {
    JournalOf(d, nick) + Ends(JournalOf(d, nick), HistoryOf(d.w, nick), o, now, cfg)
  }

  /** One turn of the supervisor, written up: a spawn, or a launch that failed. */
  function TurnOf(d: Diary, agents: seq<string>, nick: string, o: Obs, now: real, cfg: Config, dryRun: bool): (r: Diary)
    requires nick in d.w.views
    ensures r.w == StepWorld(d.w, agents, nick, o, now, cfg, dryRun)
  {
    var next := StepWorld(d.w, agents, nick, o, now, cfg, dryRun);
    var h, log := HistoryOf(d.w, nick), JournalAt(d, nick, o, now, cfg);
    var tried := !dryRun && MayStart(log, h, OthersInFlight(d, agents, nick), o, now, cfg);
    Diary(next, d.log[nick := log +
      if HistoryOf(next, nick) != h then [Begun]
      else if tried && !(o.specOk && o.spawnOk) then [Down] else []])
  }

  function SweepDiary(d: Diary, agents: seq<string>, nicks: seq<string>, t: Tick, cfg: Config, dryRun: bool): (r: Diary)
    requires forall n :: n in nicks ==> n in d.w.views
    ensures r.w == SweepWorld(d.w, agents, nicks, t, cfg, dryRun)
    decreases |nicks|
  {
    if nicks == [] then d
    else
      assert forall n :: n in nicks[1..] ==> n in nicks;
      SweepDiary(TurnOf(d, agents, nicks[0], t.obs(nicks[0]), t.now, cfg, dryRun), agents, nicks[1..], t, cfg, dryRun)
  }

  function RunDiary(d: Diary, agents: seq<string>, ticks: seq<Tick>, cfg: Config, dryRun: bool): (r: Diary)
    requires forall n :: n in agents ==> n in d.w.views
    ensures r.w == RunWorld(d.w, agents, ticks, cfg, dryRun)
    decreases |ticks|
  {
    if ticks == [] then d
    else RunDiary(SweepDiary(d, agents, agents, ticks[0], cfg, dryRun), agents, ticks[1..], cfg, dryRun)
  }

  // ----- the state is a summary of the journal -----

  ghost predicate Summary(v: NickView, log: Journal, h: History, cfg: Config) {
    && v.failures == Streak(log) && (v.parked <==> Streak(log) >= cfg.maxFailures)
    && (v.awaiting != 0.0 <==> InFlight(log))
    && (InFlight(log) ==> h != [] && v.awaiting == Last(h) && v.holdsProc && !v.parked)
  }

  lemma StreakAppend(log: Journal, e: Event)
    ensures Streak(log + [e]) == if e == Up then 0 else if e == Down then Streak(log) + 1 else Streak(log)
    ensures InFlight(log + [e]) <==> e == Begun
  {
    assert (log + [e])[..|log|] == log;
  }

  /** Settling a start in flight is entering its fate: one still within its timeout stays. */
  lemma SettledMatches(v: NickView, log: Journal, h: History, o: Obs, now: real, cfg: Config)
    requires cfg.Valid() && Summary(v, log, h, cfg)
    ensures Summary(Settled(v, o, now, cfg), log + Ends(log, h, o, now, cfg), h, cfg)
  {
    StreakAppend(log, Up);
    StreakAppend(log, Down);
    assert log + [] == log;
  }

  lemma {:induction false} LastHourIsEnd(h: History, k: nat, now: real)
    requires k <= |h| && forall i :: 0 <= i < |h| ==> (now - h[i] < 3600.0 <==> k <= i)
    ensures LastHour(h, now) == |h| - k
    decreases |h|
  {
    if h != [] {
      LastHourIsEnd(h[..|h| - 1], if k == |h| then k - 1 else k, now);
    }
  }

  lemma {:induction false} CountIsSet(views: Views, nicks: seq<string>, all: set<string>)
    requires Distinct(nicks) && forall n :: n in all <==> n in nicks && Waiting(views, n)
    ensures InFlightCount(views, nicks) == |all|
    decreases |nicks|
  {
    if nicks != [] {
      assert nicks == [nicks[0]] + nicks[1..];
      CountIsSet(views, nicks[1..], all - {nicks[0]});
    }
  }

  /** The pruned start list answers both questions put to the full history. */
  lemma PrunedTells(starts: History, h: History, now: real, cfg: Config)
    requires RateInv(starts, h, now, cfg)
    ensures
      var kept := Filter(Recent(now), starts);
      && |Filter(Recent(now), kept)| == LastHour(h, now)
      && ((kept == [] || now - Last(kept) >= cfg.cooldown) <==> (h == [] || now - Last(h) >= Min(cfg.cooldown, 3600.0)))
  {
    var kept := Filter(Recent(now), starts);
    PruneKeepsRate(starts, h, now, now, cfg);
    PrunedTwice(starts, now);
    FilterElements(Recent(now), starts);
    forall i | 0 <= i < |h| ensures now - h[i] < 3600.0 <==> |h| - |kept| <= i {
      if i >= |h| - |kept| {
        assert h[i] == kept[i - (|h| - |kept|)];
        assert h[i] in kept;
      }
    }
    LastHourIsEnd(h, |h| - |kept|, now);
  }

  ghost predicate DiaryInv(d: Diary, agents: seq<string>, now: real, cfg: Config) {
    && FleetInv(d.w, agents, now, cfg)
    && forall n :: n in agents ==> Summary(d.w.views[n], JournalOf(d, n), HistoryOf(d.w, n), cfg)
  }

  lemma CountMatches(d: Diary, agents: seq<string>, nick: string, v: NickView, now: real, cfg: Config)
    requires DiaryInv(d, agents, now, cfg) && nick in agents && v.awaiting == 0.0
    ensures InFlightCount(d.w.views[nick := v], agents) == OthersInFlight(d, agents, nick)
  {
    var all := set n | n in agents && n != nick && InFlight(JournalOf(d, n));
    forall n ensures n in all <==> n in agents && Waiting(d.w.views[nick := v], n) {
      if n in agents && n != nick {
        assert Summary(d.w.views[n], JournalOf(d, n), HistoryOf(d.w, n), cfg);
      }
    }
    CountIsSet(d.w.views[nick := v], agents, all);
  }

  /** The verdict by the rules, asked of what happened. */
  function Rule(log: Journal, h: History, others: nat, o: Obs, now: real, cfg: Config): Verdict {
    if Streak(log) >= cfg.maxFailures then Parked
    else if o.live then AlreadyLive
    else if InFlight(log) then Verdict.InFlight
    else if o.mail == 0 then NoMail
    else if h != [] && now - Last(h) < Min(cfg.cooldown, 3600.0) then CoolingDown
    else if LastHour(h, now) >= cfg.maxStartsPerHour then RateLimited
    else if others >= cfg.maxConcurrent then TooManyInFlight
    else Start
  }

  /** The gates, asked of the settled state, are the rules. */
  lemma GatesMatch(v: NickView, log: Journal, h: History, concurrent: nat, o: Obs, now: real, cfg: Config)
    requires cfg.Valid() && Summary(v, log, h, cfg)
    requires |Filter(Recent(now), v.starts)| == LastHour(h, now)
    requires (v.starts == [] || now - Last(v.starts) >= cfg.cooldown) <==>
      (h == [] || now - Last(h) >= Min(cfg.cooldown, 3600.0))
    ensures Decide(v, if Counted(v, o) then o.mail else 0, o.live, now, cfg, concurrent) ==
      Rule(log, h, concurrent, o, now, cfg)
  {
  }

  lemma VerdictAtTurn(d: Diary, agents: seq<string>, nick: string, o: Obs, now: real, cfg: Config)
    requires cfg.Valid() && 0.0 < now && DiaryInv(d, agents, now, cfg) && nick in agents
    ensures VerdictFor(d.w.views, agents, nick, o, now, cfg) ==
      Rule(JournalAt(d, nick, o, now, cfg), HistoryOf(d.w, nick), OthersInFlight(d, agents, nick), o, now, cfg)
  {
    var v0, h, log := d.w.views[nick], HistoryOf(d.w, nick), JournalAt(d, nick, o, now, cfg);
    var v := Settled(v0, o, now, cfg);
    var concurrent := InFlightCount(d.w.views[nick := v], agents);
    SettledMatches(v0, JournalOf(d, nick), h, o, now, cfg);
    SettledStarts(v0, o, now, cfg);
    PrunedTells(v0.starts, h, now, cfg);
    GatesMatch(v, log, h, concurrent, o, now, cfg);
    if v.awaiting == 0.0 {
      CountMatches(d, agents, nick, v, now, cfg);
    }
  }

  /** The verdict is `Start` exactly when the rules for a start hold of what happened. */
  lemma StartIff(d: Diary, agents: seq<string>, nick: string, o: Obs, now: real, cfg: Config)
    requires cfg.Valid() && 0.0 < now && DiaryInv(d, agents, now, cfg) && nick in agents
    ensures VerdictFor(d.w.views, agents, nick, o, now, cfg) == Start <==>
      MayStart(JournalAt(d, nick, o, now, cfg), HistoryOf(d.w, nick), OthersInFlight(d, agents, nick), o, now, cfg)
  {
    VerdictAtTurn(d, agents, nick, o, now, cfg);
  }

  /** What a turn makes of one nick, by its verdict. */
  lemma TurnByVerdict(w: World, agents: seq<string>, nick: string, o: Obs, now: real, cfg: Config, dryRun: bool)
    requires nick in w.views
    ensures
      var next, v := StepWorld(w, agents, nick, o, now, cfg, dryRun), Settled(w.views[nick], o, now, cfg);
      if VerdictFor(w.views, agents, nick, o, now, cfg) == Start
      then next.views[nick] == Started(v, o, now, cfg, dryRun) &&
           HistoryOf(next, nick) == HistoryOf(w, nick) + if Spawns(o, dryRun) then [now] else []
      else next.views[nick] == v && HistoryOf(next, nick) == HistoryOf(w, nick)
  {
    assert HistoryOf(w, nick) + [] == HistoryOf(w, nick);
  }

  /** Starting matches what is entered: a spawn, a failed launch, or nothing. */
  lemma StartedMatches(v: NickView, log: Journal, h: History, o: Obs, now: real, cfg: Config, dryRun: bool)
    requires cfg.Valid() && 0.0 < now && Summary(v, log, h, cfg) && !InFlight(log) && Streak(log) < cfg.maxFailures
    ensures
      var entered := if dryRun then [] else if Spawns(o, dryRun) then [Begun] else [Down];
      Summary(Started(v, o, now, cfg, dryRun), log + entered, h + if Spawns(o, dryRun) then [now] else [], cfg)
  {
    StreakAppend(log, Begun);
    StreakAppend(log, Down);
    assert log + [] == log && h + [] == h;
  }

  lemma TurnKeepsSummary(d: Diary, agents: seq<string>, nick: string, o: Obs, now: real, cfg: Config, dryRun: bool)
    requires cfg.Valid() && 0.0 < now && DiaryInv(d, agents, now, cfg) && nick in agents
    ensures
      var next, h := TurnOf(d, agents, nick, o, now, cfg, dryRun), HistoryOf(d.w, nick);
      && Summary(next.w.views[nick], JournalOf(next, nick), HistoryOf(next.w, nick), cfg)
      && HistoryOf(next.w, nick) == h +
           if MayStart(JournalAt(d, nick, o, now, cfg), h, OthersInFlight(d, agents, nick), o, now, cfg) &&
              o.specOk && o.spawnOk && !dryRun
           then [now] else []
  {
    var h, log := HistoryOf(d.w, nick), JournalAt(d, nick, o, now, cfg);
    StartIff(d, agents, nick, o, now, cfg);
    SettledMatches(d.w.views[nick], JournalOf(d, nick), h, o, now, cfg);
    TurnByVerdict(d.w, agents, nick, o, now, cfg, dryRun);
    assert log + [] == log && h + [] == h;
    if MayStart(log, h, OthersInFlight(d, agents, nick), o, now, cfg) {
      StartedMatches(Settled(d.w.views[nick], o, now, cfg), log, h, o, now, cfg, dryRun);
    }
  }

  /** One turn: it spawns exactly when the rules hold, the launch works and this is no dry run,
      and the state stays a summary of the journal. */
  lemma TurnIff(d: Diary, agents: seq<string>, nick: string, o: Obs, now: real, cfg: Config, dryRun: bool)
    requires cfg.Valid() && 0.0 < now && DiaryInv(d, agents, now, cfg) && nick in agents
    ensures DiaryInv(TurnOf(d, agents, nick, o, now, cfg, dryRun), agents, now, cfg)
    ensures
      var next, h := TurnOf(d, agents, nick, o, now, cfg, dryRun), HistoryOf(d.w, nick);
      HistoryOf(next.w, nick) == h +
        if MayStart(JournalAt(d, nick, o, now, cfg), h, OthersInFlight(d, agents, nick), o, now, cfg) &&
           o.specOk && o.spawnOk && !dryRun
        then [now] else []
  {
    var next := TurnOf(d, agents, nick, o, now, cfg, dryRun);
    StepKeepsFleet(d.w, agents, nick, o, now, cfg, dryRun);
    TurnKeepsSummary(d, agents, nick, o, now, cfg, dryRun);
    forall n | n in agents ensures Summary(next.w.views[n], JournalOf(next, n), HistoryOf(next.w, n), cfg) {
      if n != nick {
        OthersSummary(d, agents, nick, o, now, cfg, dryRun, n);
      }
    }
  }

  lemma OthersSummary(d: Diary, agents: seq<string>, nick: string, o: Obs, now: real, cfg: Config, dryRun: bool,
                      n: string)
    requires nick in d.w.views && n in d.w.views && n != nick
    requires Summary(d.w.views[n], JournalOf(d, n), HistoryOf(d.w, n), cfg)
    ensures
      var next := TurnOf(d, agents, nick, o, now, cfg, dryRun);
      n in next.w.views && Summary(next.w.views[n], JournalOf(next, n), HistoryOf(next.w, n), cfg)
  {
    StepLeavesOthers(d.w, agents, nick, o, now, cfg, dryRun, n);
    assert JournalOf(TurnOf(d, agents, nick, o, now, cfg, dryRun), n) == JournalOf(d, n);
  }

  // ----- whole runs -----

  lemma DiaryAges(d: Diary, agents: seq<string>, now: real, now': real, cfg: Config)
    requires DiaryInv(d, agents, now, cfg) && now <= now'
    ensures DiaryInv(d, agents, now', cfg)
  {
    FleetAges(d.w, agents, now, now', cfg);
  }

  lemma {:induction false} SweepKeepsDiary(d: Diary, agents: seq<string>, nicks: seq<string>, t: Tick, now: real,
                                           cfg: Config, dryRun: bool)
    requires cfg.Valid() && DiaryInv(d, agents, now, cfg) && 0.0 < t.now && now <= t.now
    requires forall n :: n in nicks ==> n in agents
    ensures forall n :: n in nicks ==> n in d.w.views
    ensures DiaryInv(SweepDiary(d, agents, nicks, t, cfg, dryRun), agents, t.now, cfg)
    decreases |nicks|
  {
    DiaryAges(d, agents, now, t.now, cfg);
    if nicks != [] {
      assert forall n :: n in nicks[1..] ==> n in nicks;
      TurnIff(d, agents, nicks[0], t.obs(nicks[0]), t.now, cfg, dryRun);
      SweepKeepsDiary(TurnOf(d, agents, nicks[0], t.obs(nicks[0]), t.now, cfg, dryRun), agents, nicks[1..], t, t.now,
        cfg, dryRun);
    }
  }

  lemma {:induction false} RunKeepsDiary(d: Diary, agents: seq<string>, ticks: seq<Tick>, from: real, end: real,
                                         cfg: Config, dryRun: bool) returns (now: real)
    requires cfg.Valid() && DiaryInv(d, agents, from, cfg) && ClockForward(ticks, from) && from <= end
    requires forall i :: 0 <= i < |ticks| ==> ticks[i].now <= end
    ensures DiaryInv(RunDiary(d, agents, ticks, cfg, dryRun), agents, now, cfg) && now <= end
    decreases |ticks|
  {
    if ticks == [] {
      now := from;
    } else {
      SweepKeepsDiary(d, agents, agents, ticks[0], from, cfg, dryRun);
      now := RunKeepsDiary(SweepDiary(d, agents, agents, ticks[0], cfg, dryRun), agents, ticks[1..], ticks[0].now,
        end, cfg, dryRun);
    }
  }

  ghost predicate Opened(d: Diary, agents: seq<string>) {
    JustStarted(d.w, agents) && d.log == map[]
  }

  /** The state at the k-th nick's turn in tick `t`, after the ticks before. */
  ghost function AtTurn(d: Diary, agents: seq<string>, ticks: seq<Tick>, t: Tick, k: nat, cfg: Config, dryRun: bool)
      : (mid: Diary)
    requires Opened(d, agents) && k <= |agents|
    ensures forall n :: n in agents ==> n in mid.w.views
    ensures mid.w == SweepWorld(RunWorld(d.w, agents, ticks, cfg, dryRun), agents, agents[..k], t, cfg, dryRun)
  {
    var d1 := RunDiary(d, agents, ticks, cfg, dryRun);
    assert forall n :: n in agents[..k] ==> n in agents;
    SweepDiary(d1, agents, agents[..k], t, cfg, dryRun)
  }

  lemma AtTurnInv(d: Diary, agents: seq<string>, ticks: seq<Tick>, t: Tick, k: nat, cfg: Config, dryRun: bool)
    requires cfg.Valid() && Opened(d, agents) && ClockForward(ticks + [t], 0.0) && k <= |agents|
    ensures t.now > 0.0 && DiaryInv(AtTurn(d, agents, ticks, t, k, cfg, dryRun), agents, t.now, cfg)
  {
    NoneWaiting(d.w.views, agents);
    assert (ticks + [t])[|ticks|] == t;
    assert forall i :: 0 <= i < |ticks| ==> (ticks + [t])[i] == ticks[i];
    assert DiaryInv(d, agents, 0.0, cfg);
    var now := RunKeepsDiary(d, agents, ticks, 0.0, t.now, cfg, dryRun);
    SweepKeepsDiary(RunDiary(d, agents, ticks, cfg, dryRun), agents, agents[..k], t, now, cfg, dryRun);
  }

  /** In every run of a fresh supervisor a nick is spawned at its turn exactly when nobody is
      home or on the way, mail waits, fewer than `maxFailures` attempts in a row have failed,
      its last spawn lies a cooldown back (or an hour), fewer than `maxStartsPerHour` of its
      spawns lie less than an hour back, fewer than `maxConcurrent` others are in flight, the
      launch works, and this is no dry run. */
  lemma SpawnedIff(d: Diary, agents: seq<string>, ticks: seq<Tick>, t: Tick, k: nat, cfg: Config, dryRun: bool)
    requires cfg.Valid() && Opened(d, agents) && ClockForward(ticks + [t], 0.0) && k < |agents|
    ensures
      var mid, nick, o := AtTurn(d, agents, ticks, t, k, cfg, dryRun), agents[k], t.obs(agents[k]);
      var h, log := HistoryOf(mid.w, nick), JournalAt(mid, nick, o, t.now, cfg);
      HistoryOf(StepWorld(mid.w, agents, nick, o, t.now, cfg, dryRun), nick) == h +
        if MayStart(log, h, OthersInFlight(mid, agents, nick), o, t.now, cfg) && o.specOk && o.spawnOk && !dryRun
        then [t.now] else []
  {
    AtTurnInv(d, agents, ticks, t, k, cfg, dryRun);
    TurnIff(AtTurn(d, agents, ticks, t, k, cfg, dryRun), agents, agents[k], t.obs(agents[k]), t.now, cfg, dryRun);
  }

  /** And the verdict it reports is the first rule that stands in the way. */
  lemma VerdictTells(d: Diary, agents: seq<string>, ticks: seq<Tick>, t: Tick, k: nat, cfg: Config, dryRun: bool)
    requires cfg.Valid() && Opened(d, agents) && ClockForward(ticks + [t], 0.0) && k < |agents|
    ensures
      var mid, nick, o := AtTurn(d, agents, ticks, t, k, cfg, dryRun), agents[k], t.obs(agents[k]);
      var h, log := HistoryOf(mid.w, nick), JournalAt(mid, nick, o, t.now, cfg);
      VerdictFor(mid.w.views, agents, nick, o, t.now, cfg) ==
        Rule(log, h, OthersInFlight(mid, agents, nick), o, t.now, cfg)
  {
    AtTurnInv(d, agents, ticks, t, k, cfg, dryRun);
    var mid, nick, o := AtTurn(d, agents, ticks, t, k, cfg, dryRun), agents[k], t.obs(agents[k]);
    VerdictAtTurn(mid, agents, nick, o, t.now, cfg);
  }

  /** The breaker, at every point of every run: the failure count is the number of attempts in
      a row that failed since the nick last came up, and the nick is parked exactly when that
      has reached `maxFailures`. */
  lemma ParkedIff(d: Diary, agents: seq<string>, ticks: seq<Tick>, t: Tick, k: nat, cfg: Config, dryRun: bool,
                  nick: string)
    requires cfg.Valid() && Opened(d, agents) && ClockForward(ticks + [t], 0.0) && k <= |agents| && nick in agents
    ensures
      var mid := AtTurn(d, agents, ticks, t, k, cfg, dryRun);
      && mid.w.views[nick].failures == Streak(JournalOf(mid, nick))
      && (mid.w.views[nick].parked <==> Streak(JournalOf(mid, nick)) >= cfg.maxFailures)
  {
    AtTurnInv(d, agents, ticks, t, k, cfg, dryRun);
  }

  /** What becomes of a start in flight at its nick's turn. */
  lemma GraceTurn(d: Diary, agents: seq<string>, nick: string, o: Obs, now: real, cfg: Config, dryRun: bool)
    requires cfg.Valid() && 0.0 < now && DiaryInv(d, agents, now, cfg) && nick in agents
    requires Waiting(d.w.views, nick)
    ensures
      var h, next := HistoryOf(d.w, nick), StepWorld(d.w, agents, nick, o, now, cfg, dryRun);
      && h != []
      && (!o.live && !o.exited && now - Last(h) <= cfg.startTimeout <==>
          Waiting(next.views, nick) && HistoryOf(next, nick) == h)
      && (Waiting(next.views, nick) && HistoryOf(next, nick) == h ==>
          next.views[nick].failures == d.w.views[nick].failures)
  {
    var v, h, log := d.w.views[nick], HistoryOf(d.w, nick), JournalOf(d, nick);
    TurnByVerdict(d.w, agents, nick, o, now, cfg, dryRun);
    StartIff(d, agents, nick, o, now, cfg);
    SettledMatches(v, log, h, o, now, cfg);
    StreakAppend(log, Up);
    StreakAppend(log, Down);
    assert log + [] == log;
  }

  /** A start gets its timeout: at its nick's turn in any run, a start in flight is still in
      flight afterwards exactly when the nick is not live, the child has not exited and the
      spawn lies at most `startTimeout` back, and then nothing is counted against it. */
  lemma GraceIff(d: Diary, agents: seq<string>, ticks: seq<Tick>, t: Tick, k: nat, cfg: Config, dryRun: bool)
    requires cfg.Valid() && Opened(d, agents) && ClockForward(ticks + [t], 0.0) && k < |agents|
    requires Waiting(AtTurn(d, agents, ticks, t, k, cfg, dryRun).w.views, agents[k])
    ensures
      var mid, nick, o := AtTurn(d, agents, ticks, t, k, cfg, dryRun), agents[k], t.obs(agents[k]);
      var h, next := HistoryOf(mid.w, nick), StepWorld(mid.w, agents, nick, o, t.now, cfg, dryRun);
      && h != []
      && (!o.live && !o.exited && t.now - Last(h) <= cfg.startTimeout <==>
          Waiting(next.views, nick) && HistoryOf(next, nick) == h)
      && (Waiting(next.views, nick) && HistoryOf(next, nick) == h ==>
          next.views[nick].failures == mid.w.views[nick].failures)
  {
    AtTurnInv(d, agents, ticks, t, k, cfg, dryRun);
    GraceTurn(AtTurn(d, agents, ticks, t, k, cfg, dryRun), agents, agents[k], t.obs(agents[k]), t.now, cfg, dryRun);
  }
}
