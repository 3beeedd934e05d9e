/** The lifecycle supervisor: when a nick is started, and what is remembered about it
    (supervisor.py). Clock readings are positive; 0.0 means "not waiting". */
module Supervision {
  import opened Order

  const RATE_WINDOW_SECONDS := 3600.0

  datatype Config = Config(cooldown: real, startTimeout: real, maxFailures: nat, maxStartsPerHour: nat,
                           maxConcurrent: nat)
  {
    /** `_num` refuses anything that is not positive. */
    predicate Valid() {
      cooldown > 0.0 && startTimeout > 0.0 && maxFailures > 0 && maxStartsPerHour > 0 && maxConcurrent > 0
    }
  }

  /** One nick's state, as a value. */
  datatype NickView = NickView(starts: seq<real>, failures: nat, holdsProc: bool, awaiting: real, parked: bool)

  /** What a pass finds out about one nick: presence, whether the held child has exited,
      waiting mail, whether the spec checks out and whether a spawn would succeed. */
  datatype Obs = Obs(live: bool, exited: bool, mail: nat, specOk: bool, spawnOk: bool)

  datatype Verdict = Start | Parked | AlreadyLive | InFlight | NoMail | CoolingDown | RateLimited | TooManyInFlight

  function Recent(now: real): real -> bool { (t: real) => now - t < RATE_WINDOW_SECONDS }

  function LastStart(v: NickView): real { if v.starts == [] then 0.0 else v.starts[|v.starts| - 1] }

  /** `decide`, gate by gate. */
  function Decide(v: NickView, mail: nat, live: bool, now: real, cfg: Config, concurrent: nat): Verdict {
    if v.parked then Parked
    else if live then AlreadyLive
    else if v.awaiting != 0.0 then InFlight
    else if mail == 0 then NoMail
    else if v.starts != [] && now - LastStart(v) < cfg.cooldown then CoolingDown
    else if |Filter(Recent(now), v.starts)| >= cfg.maxStartsPerHour then RateLimited
    else if concurrent >= cfg.maxConcurrent then TooManyInFlight
    else Start
  }

  function Pruned(v: NickView, now: real): NickView { v.(starts := Filter(Recent(now), v.starts)) }

  function Failed(v: NickView, cfg: Config): NickView {
    v.(awaiting := 0.0, failures := v.failures + 1, parked := v.parked || v.failures + 1 >= cfg.maxFailures)
  }

  function Resolved(v: NickView, o: Obs, now: real, cfg: Config): NickView {
    var exited := v.holdsProc && o.exited;
    var w :=
      if o.live then v.(awaiting := 0.0, failures := 0)
      else if exited || now - v.awaiting > cfg.startTimeout then Failed(v, cfg)
      else v;
    if exited then w.(holdsProc := false) else w
  }

  /** Prune, then settle a start in flight or reap a finished child. */
  function Settled(v: NickView, o: Obs, now: real, cfg: Config): NickView {
    var w := Pruned(v, now);
    if w.awaiting != 0.0 then Resolved(w, o, now, cfg)
    else if w.holdsProc && o.exited then w.(holdsProc := false)
    else w
  }

  predicate Counted(v: NickView, o: Obs) { !o.live && !v.parked && v.awaiting == 0.0 }

  predicate Spawns(o: Obs, dryRun: bool) { !dryRun && o.specOk && o.spawnOk }

  function Started(v: NickView, o: Obs, now: real, cfg: Config, dryRun: bool): NickView {
    if dryRun then v
    else if !Spawns(o, dryRun) then Failed(v, cfg)
    else v.(starts := v.starts + [now], holdsProc := true, awaiting := now)
  }

  type Views = map<string, NickView>

  predicate Waiting(views: Views, nick: string) { nick in views && views[nick].awaiting != 0.0 }

  function InFlightCount(views: Views, nicks: seq<string>): nat {
    if nicks == [] then 0 else (if Waiting(views, nicks[0]) then 1 else 0) + InFlightCount(views, nicks[1..])
  }

  function VerdictFor(views: Views, agents: seq<string>, nick: string, o: Obs, now: real, cfg: Config): Verdict
    requires nick in views
  {
    var v := Settled(views[nick], o, now, cfg);
    Decide(v, if Counted(v, o) then o.mail else 0, o.live, now, cfg, InFlightCount(views[nick := v], agents))
  }

  /** The pass over one nick. */
  function StepNick(views: Views, agents: seq<string>, nick: string, o: Obs, now: real, cfg: Config,
                    dryRun: bool): Views
    requires nick in views
  {
    var v := Settled(views[nick], o, now, cfg);
    views[nick := if VerdictFor(views, agents, nick, o, now, cfg) == Start then Started(v, o, now, cfg, dryRun) else v]
  }

  datatype Pass = Pass(views: Views, verdicts: seq<Verdict>)

  /** The pass over a list of nicks. */
  function Sweep(p: Pass, agents: seq<string>, nicks: seq<string>, obs: string -> Obs, now: real, cfg: Config,
                 dryRun: bool): (r: Pass)
    requires forall n :: n in nicks ==> n in p.views
    ensures r.views.Keys == p.views.Keys
    decreases |nicks|
  {
    if nicks == [] then p
    else
      assert forall n :: n in nicks[1..] ==> n in nicks;
      var next := Pass(StepNick(p.views, agents, nicks[0], obs(nicks[0]), now, cfg, dryRun),
                       p.verdicts + [VerdictFor(p.views, agents, nicks[0], obs(nicks[0]), now, cfg)]);
      Sweep(next, agents, nicks[1..], obs, now, cfg, dryRun)
  }

  /** The state of one nick, kept from tick to tick. */
  class NickState {
    var starts: seq<real>
    var failures: nat
    var holdsProc: bool
    var awaiting: real
    var parked: bool

    ghost function View(): NickView
      reads this
    {
      NickView(starts, failures, holdsProc, awaiting, parked)
    }

    constructor ()
      ensures View() == NickView([], 0, false, 0.0, false)
    {
      starts, failures, holdsProc, awaiting, parked := [], 0, false, 0.0, false;
    }

    /** How many of `starts` lie in the rate window. */
    method RecentStarts(now: real) returns (n: nat)
      ensures n == |Filter(Recent(now), starts)|
    {
      var kept := Keep(now);
      n := |kept|;
    }

    method Keep(now: real) returns (kept: seq<real>)
      ensures kept == Filter(Recent(now), starts)
    {
      kept := [];
      assert starts[0..] == starts;
      var i := 0;
      while i < |starts|
        invariant 0 <= i <= |starts|
        invariant kept + Filter(Recent(now), starts[i..]) == Filter(Recent(now), starts)
      {
        if now - starts[i] < RATE_WINDOW_SECONDS {
          kept := kept + [starts[i]];
        }
        assert starts[i..][1..] == starts[i + 1..];
        i := i + 1;
      }
    }

    method Prune(now: real)
      modifies this
      ensures View() == Pruned(old(View()), now)
    {
      starts := Keep(now);
    }

    /** One more failure; at the limit the nick is parked. */
    method Fail(cfg: Config)
      modifies this
      ensures View() == Failed(old(View()), cfg)
    {
      awaiting := 0.0;
      failures := failures + 1;
      if failures >= cfg.maxFailures {
        parked := true;
      }
    }

    /** Decide the fate of a start still waited on. Presence is checked before the exit
        code: a launcher that returns after starting a daemon has succeeded. */
    method ResolveInFlight(o: Obs, now: real, cfg: Config)
      modifies this
      ensures View() == Resolved(old(View()), o, now, cfg)
    {
      var exited := holdsProc && o.exited;
      var waited := now - awaiting;
      if o.live {
        awaiting := 0.0;
        failures := 0;
      } else if exited {
        Fail(cfg);
      } else if waited > cfg.startTimeout {
        Fail(cfg);
      }
      if exited {
        holdsProc := false;
      }
    }

    /** The bookkeeping half of a pass over this nick. */
    method Settle(o: Obs, now: real, cfg: Config)
      modifies this
      ensures View() == Settled(old(View()), o, now, cfg)
    {
      Prune(now);
      if awaiting != 0.0 {
        ResolveInFlight(o, now, cfg);
      } else if holdsProc && o.exited {
        holdsProc := false;
      }
    }

    method Begin(o: Obs, now: real, cfg: Config, dryRun: bool)
      modifies this
      ensures View() == Started(old(View()), o, now, cfg, dryRun)
    {
      if dryRun {
        return;
      }
      if !o.specOk || !o.spawnOk {
        Fail(cfg);
        return;
      }
      holdsProc := true;
      starts := starts + [now];
      awaiting := now;
    }
  }

  class Supervisor {
    const cfg: Config
    const agents: seq<string>
    const dryRun: bool
    const states: map<string, NickState>

    ghost predicate Valid() {
      && cfg.Valid()
      && (forall n :: n in agents <==> n in states)
      && (forall i, j :: 0 <= i < j < |agents| ==> agents[i] != agents[j])
      && (forall a, b :: a in states && b in states && a != b ==> states[a] != states[b])
    }

    ghost function Views(): Views
      reads states.Values
    {
      map n | n in states :: states[n].View()
    }

    constructor (cfg: Config, agents: seq<string>, dryRun: bool)
      requires cfg.Valid() && forall i, j :: 0 <= i < j < |agents| ==> agents[i] != agents[j]
      ensures Valid() && this.cfg == cfg && this.agents == agents && this.dryRun == dryRun
      ensures forall n :: n in agents ==> Views()[n] == NickView([], 0, false, 0.0, false)
    {
      var made: map<string, NickState> := map[];
      var i := 0;
      while i < |agents|
        invariant 0 <= i <= |agents|
        invariant forall n :: n in agents[..i] <==> n in made
        invariant forall n :: n in made ==> fresh(made[n]) && allocated(made[n])
        invariant forall n :: n in made ==> made[n].View() == NickView([], 0, false, 0.0, false)
        invariant forall a, b :: a in made && b in made && a != b ==> made[a] != made[b]
      {
        var st := new NickState();
        made := made[agents[i] := st];
        i := i + 1;
      }
      assert agents[..i] == agents;
      this.cfg, this.agents, this.dryRun := cfg, agents, dryRun;
      this.states := made;
    }

    method CountInFlight() returns (n: nat)
      requires Valid()
      ensures n == InFlightCount(Views(), agents)
    {
      n := 0;
      assert agents[0..] == agents;
      var i := 0;
      while i < |agents|
        invariant 0 <= i <= |agents|
        invariant n + InFlightCount(Views(), agents[i..]) == InFlightCount(Views(), agents)
      {
        assert agents[i..][1..] == agents[i + 1..];
        assert agents[i] in agents;
        if states[agents[i]].awaiting != 0.0 {
          n := n + 1;
        }
        i := i + 1;
      }
    }

    method SettleNick(nick: string, o: Obs, now: real)
      requires Valid() && nick in states
      modifies states[nick]
      ensures Views() == old(Views())[nick := Settled(old(Views())[nick], o, now, cfg)]
    {
      states[nick].Settle(o, now, cfg);
    }

    method BeginNick(nick: string, o: Obs, now: real)
      requires Valid() && nick in states
      modifies states[nick]
      ensures Views() == old(Views())[nick := Started(old(Views())[nick], o, now, cfg, dryRun)]
    {
      states[nick].Begin(o, now, cfg, dryRun);
    }

    /** The pass over one allowlisted nick. */
    method TickNick(nick: string, o: Obs, now: real) returns (verdict: Verdict)
      requires Valid() && nick in states
      modifies states.Values
      ensures verdict == VerdictFor(old(Views()), agents, nick, o, now, cfg)
      ensures Views() == StepNick(old(Views()), agents, nick, o, now, cfg, dryRun)
    {
      SettleNick(nick, o, now);
      var state := states[nick];
      assert Views()[nick] == state.View();
      var counted := !o.live && !state.parked && state.awaiting == 0.0;
      var concurrent := CountInFlight();
      verdict := DecideNow(state, if counted then o.mail else 0, o.live, now, concurrent);
      if verdict == Start {
        BeginNick(nick, o, now);
      }
    }

    method DecideNow(state: NickState, mail: nat, live: bool, now: real, concurrent: nat) returns (v: Verdict)
      ensures v == Decide(state.View(), mail, live, now, cfg, concurrent)
    {
      if state.parked { return Parked; }
      if live { return AlreadyLive; }
      if state.awaiting != 0.0 { return InFlight; }
      if mail == 0 { return NoMail; }
      if state.starts != [] && now - state.starts[|state.starts| - 1] < cfg.cooldown { return CoolingDown; }
      var recent := state.RecentStarts(now);
      if recent >= cfg.maxStartsPerHour { return RateLimited; }
      if concurrent >= cfg.maxConcurrent { return TooManyInFlight; }
      v := Start;
    }

    /** One full sweep. */
    method Tick(obs: string -> Obs, now: real) returns (verdicts: seq<Verdict>)
      requires Valid()
      modifies states.Values
      ensures Pass(Views(), verdicts) == Sweep(Pass(old(Views()), []), agents, agents, obs, now, cfg, dryRun)
    {
      verdicts := [];
      assert agents[0..] == agents;
      var i := 0;
      while i < |agents|
        invariant 0 <= i <= |agents|
        invariant Sweep(Pass(Views(), verdicts), agents, agents[i..], obs, now, cfg, dryRun) ==
          Sweep(Pass(old(Views()), []), agents, agents, obs, now, cfg, dryRun)
      {
        assert agents[i..][1..] == agents[i + 1..];
        assert agents[i] in agents;
        var v := TickNick(agents[i], obs(agents[i]), now);
        verdicts := verdicts + [v];
        i := i + 1;
      }
    }
  }
}
