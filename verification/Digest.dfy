/** "What happened while I was away": the watermark a nick's registry record keeps
    (server.py) and what the work items did from it on (digest.py). Clock readings are
    real; a stamp is the reading cut to whole seconds. */
module Digest {
  import opened Ids
  import opened Messages
  import opened Order
  import Tasks

  /** The `.agents` record of one nick. */
  datatype Rec = Rec(firstSeen: int, lastSeen: int, previousSeen: Option<int>)

  /** When the nick last stopped being live, and whether by a clean release. */
  datatype Down = Down(at: real, clean: bool)

  /** One nick. `live` holds the presence locks, `pending` the sessions that hold a lock and
      have not registered yet. `down` and `spell`, the stamps made since the nick came up,
      are bookkeeping for the theorems. */
  datatype World = World(rec: Option<Rec>, live: set<string>, pending: set<string>, down: Option<Down>,
                         spell: seq<int>, clock: real)

  datatype Step =
    | Claim(id: string, now: real)
    | Lock(id: string, now: real)
    | Register(id: string, now: real)
    | Subscribe(id: string, now: real)
    | Release(id: string, now: real)
    | Crash(id: string, now: real)

  /** `_register_agent`: the watermark moves only when no other session is live. */
  function Registered(rec: Option<Rec>, others: bool, now: int): Rec {
    var r := if rec.Some? then rec.value else Rec(now, now, None);
    r.(previousSeen := if others then r.previousSeen else Some(r.lastSeen), lastSeen := now)
  }

  /** `_touch_agent`. */
  function Touched(rec: Option<Rec>, now: int): Option<Rec> {
    if rec.Some? then Some(rec.value.(lastSeen := now)) else None
  }

  predicate Enabled(w: World, s: Step) {
    && w.clock <= s.now
    && match s
       case Claim(id, now) => id !in w.live
       case Lock(id, now) => id !in w.live
       case Register(id, now) => id in w.pending && id in w.live
       case Subscribe(id, now) => id in w.live && id !in w.pending
       case Release(id, now) => id in w.live && id !in w.pending
       case Crash(id, now) => id in w.live
  }

  /** A stamp went into the record. */
  function Stamped(w: World, rec: Option<Rec>, now: real): World {
    w.(rec := rec, spell := if rec.Some? then w.spell + [now.Floor] else w.spell, clock := now)
  }

  function Locked(w: World, id: string, now: real): World {
    w.(live := w.live + {id}, pending := w.pending + {id}, clock := now)
  }

  function AfterRegister(w: World, id: string, now: real): World {
    Stamped(w.(pending := w.pending - {id}), Some(Registered(w.rec, w.live - {id} != {}, now.Floor)), now)
  }

  function Gone(w: World, id: string, now: real, clean: bool): World {
    var live := w.live - {id};
    if live == {} then
      w.(live := live, pending := w.pending - {id}, down := Some(Down(now, clean)), spell := [], clock := now)
    else w.(live := live, pending := w.pending - {id}, clock := now)
  }

  function Next(w: World, s: Step): World {
    match s
    case Claim(id, now) => AfterRegister(Locked(w, id, now), id, now)
    case Lock(id, now) => Locked(w, id, now)
    case Register(id, now) => AfterRegister(w, id, now)
    case Subscribe(id, now) => Stamped(w, Touched(w.rec, now.Floor), now)
    case Release(id, now) => Gone(Stamped(w, Touched(w.rec, now.Floor), now), id, now, true)
    case Crash(id, now) => Gone(w, id, now, false)
  }

  /** One nick's presence locks and registry record, as its sessions change them. The ghost
      fields are the bookkeeping of `World`. */
  class Registry {
    var rec: Option<Rec>
    var live: set<string>
    ghost var pending: set<string>
    ghost var down: Option<Down>
    ghost var spell: seq<int>
    ghost var clock: real

    ghost function State(): World
      reads this
    {
      World(rec, live, pending, down, spell, clock)
    }

    constructor ()
      ensures State() == NEW_NICK
    {
      rec, live, pending, down, spell, clock := None, {}, {}, None, [], 0.0;
    }

    /** Lock and registration of one claim; refused while another process holds the id. */
    method ClaimId(id: string, now: real) returns (ok: bool)
      modifies this
      ensures ok <==> id !in old(live)
      ensures State() == if ok then Next(old(State()), Claim(id, now)) else old(State())
    {
      if id in live {
        return false;
      }
      live, pending, clock := live + {id}, pending + {id}, now;
      RegisterAgent(id, now.Floor);
      pending, spell := pending - {id}, spell + [now.Floor];
      return true;
    }

    method RegisterAgent(agent: string, now: int)
      modifies this`rec
      ensures rec == Some(Registered(old(rec), live - {agent} != {}, now))
    {
      var r := if rec.Some? then rec.value else Rec(now, now, None);
      if live - {agent} == {} {
        r := r.(previousSeen := Some(r.lastSeen));
      }
      r := r.(lastSeen := now);
      rec := Some(r);
    }

    method TouchAgent(now: int)
      modifies this`rec
      ensures rec == Touched(old(rec), now)
    {
      if rec.None? {
        return;
      }
      rec := Some(rec.value.(lastSeen := now));
    }

    /** A subscription stamps the record. */
    method Subscribed(id: string, now: real)
      modifies this
      ensures State() == Next(old(State()), Subscribe(id, now))
    {
      TouchAgent(now.Floor);
      spell, clock := if rec.Some? then spell + [now.Floor] else spell, now;
    }

    /** A clean exit: stamp the record, then drop the lock. */
    method ReleaseId(id: string, now: real)
      modifies this
      ensures State() == Next(old(State()), Release(id, now))
    {
      TouchAgent(now.Floor);
      spell, clock := if rec.Some? then spell + [now.Floor] else spell, now;
      live, pending := live - {id}, pending - {id};
      if live == {} {
        down, spell := Some(Down(now, true)), [];
      }
    }
  }

  /** The start of the window and whether it was measured; `None` is the empty string,
      which sorts before every timestamp. */
  function Watermark(rec: Option<Rec>): (Option<int>, bool) {
    if rec.None? then (None, false)
    else if rec.value.previousSeen.Some? then (rec.value.previousSeen, true)
    else (Some(rec.value.firstSeen), false)
  }

  // ----- what every run keeps -----

  ghost predicate Inv(w: World) {
    && w.pending <= w.live
    && (w.live == {} ==> w.spell == [])
    && (w.down.Some? ==> w.down.value.at <= w.clock)
    && (w.rec.Some? ==> w.rec.value.lastSeen <= w.clock.Floor)
    && (w.spell != [] ==> w.rec.Some? && w.spell[|w.spell| - 1] == w.rec.value.lastSeen)
    && (forall i :: 0 <= i < |w.spell| ==> w.spell[i] <= w.spell[|w.spell| - 1])
    && (w.rec.Some? && w.spell == [] ==> w.down.Some? && w.rec.value.lastSeen <= w.down.value.at.Floor)
  }

  lemma StepKeeps(w: World, s: Step)
    requires Inv(w) && Enabled(w, s)
    ensures Inv(Next(w, s))
  {
  }

  predicate WholeClaim(s: Step) { !s.Lock? && !s.Register? }

  /** Holds when a claim's lock and registration are one step: a live nick is registered,
      its watermark lies no later than the moment it was last down, and it is the release
      stamp if that exit was clean. */
  ghost predicate Safe(w: World) {
    && w.pending == {}
    && (w.live != {} ==> w.spell != [])
    && (w.down.Some? ==> w.rec.Some?)
    && (w.live == {} && w.down.Some? && w.down.value.clean ==> w.rec.value.lastSeen == w.down.value.at.Floor)
    && (w.live != {} ==> w.rec.Some? && w.rec.value.previousSeen.Some?)
    && (w.live != {} && w.down.Some? ==>
          && w.rec.value.previousSeen.value <= w.down.value.at.Floor
          && (w.down.value.clean ==> w.rec.value.previousSeen.value == w.down.value.at.Floor))
  }

  lemma StepKeepsSafe(w: World, s: Step)
    requires Inv(w) && Safe(w) && Enabled(w, s) && WholeClaim(s)
    ensures Safe(Next(w, s))
  {
  }

  ghost predicate Reaches(w: World, run: seq<Step>, w': World)
    decreases |run|
  {
    if run == [] then w == w' else Enabled(w, run[0]) && Reaches(Next(w, run[0]), run[1..], w')
  }

  ghost predicate WholeClaims(run: seq<Step>) { forall i :: 0 <= i < |run| ==> WholeClaim(run[i]) }

  lemma {:induction false} RunKeeps(w: World, run: seq<Step>, w': World)
    requires Inv(w) && Reaches(w, run, w')
    ensures Inv(w')
    ensures Safe(w) && WholeClaims(run) ==> Safe(w')
    decreases |run|
  {
    if run != [] {
      StepKeeps(w, run[0]);
      if Safe(w) && WholeClaims(run) {
        StepKeepsSafe(w, run[0]);
      }
      RunKeeps(Next(w, run[0]), run[1..], w');
    }
  }

  const NEW_NICK := World(None, {}, {}, None, [], 0.0)

  /** Over every run of claims, subscriptions, releases and crashes: while the nick is live,
      its window starts no later than the moment it last stopped being live, and exactly at
      the release stamp when that exit was clean. */
  lemma WatermarkNeverLate(run: seq<Step>, w: World)
    requires Reaches(NEW_NICK, run, w) && WholeClaims(run) && w.live != {} && w.down.Some?
    ensures Watermark(w.rec).1 && Watermark(w.rec).0.Some?
    ensures Watermark(w.rec).0.value <= w.down.value.at.Floor
    ensures w.down.value.clean ==> Watermark(w.rec).0.value == w.down.value.at.Floor
  {
    RunKeeps(NEW_NICK, run, w);
  }

  ghost predicate StampsInOrder(w: World) {
    w.rec.Some? ==>
      && w.rec.value.firstSeen <= w.rec.value.lastSeen
      && (w.rec.value.previousSeen.Some? ==>
            w.rec.value.firstSeen <= w.rec.value.previousSeen.value <= w.rec.value.lastSeen)
  }

  /** Whatever is interleaved: a registered nick's window starts at a stamp of its own, not
      before it first registered and not after it was last seen. */
  lemma {:induction false} WindowWithinRecord(w: World, run: seq<Step>, w': World)
    requires Inv(w) && StampsInOrder(w) && Reaches(w, run, w')
    ensures StampsInOrder(w')
    ensures w'.rec.Some? ==>
      Watermark(w'.rec).0.Some? && w'.rec.value.firstSeen <= Watermark(w'.rec).0.value <= w'.rec.value.lastSeen
    decreases |run|
  {
    if run != [] {
      StepKeeps(w, run[0]);
      WindowWithinRecord(Next(w, run[0]), run[1..], w');
    }
  }

  ghost predicate StaysUp(w: World, run: seq<Step>)
    decreases |run|
  {
    w.live != {} && (run != [] ==> StaysUp(Next(w, run[0]), run[1..]))
  }

  /** Sessions that come and go while the nick stays live never move its window. */
  lemma {:induction false} SiblingsDoNotAdvance(w: World, run: seq<Step>, w': World)
    requires Inv(w) && Safe(w) && Reaches(w, run, w') && WholeClaims(run) && StaysUp(w, run)
    ensures Watermark(w'.rec) == Watermark(w.rec)
    decreases |run|
  {
    if run != [] {
      StepKeeps(w, run[0]);
      StepKeepsSafe(w, run[0]);
      SiblingsDoNotAdvance(Next(w, run[0]), run[1..], w');
    }
  }

  // ----- lock and registration as two steps -----

  /** Registering as the only live session keeps the window safe exactly when no stamp made
      since the nick came up is later than the moment it was last down: it fails when a
      sibling registered and went between this session's lock and its registration. */
  lemma RegisterSafeIff(run: seq<Step>, w: World, id: string, now: real)
    requires Reaches(NEW_NICK, run, w) && Enabled(w, Register(id, now)) && w.live == {id}
    requires w.rec.Some? && w.down.Some?
    ensures
      var w' := Next(w, Register(id, now));
      w'.rec.value.previousSeen.value <= w.down.value.at.Floor <==>
        forall i :: 0 <= i < |w.spell| ==> w.spell[i] <= w.down.value.at.Floor
  {
    RunKeeps(NEW_NICK, run, w);
    assert w.live - {id} == {};
  }

  ghost predicate UnderReports(w: World) {
    w.live != {} && w.down.Some? && Watermark(w.rec).0.Some? && Watermark(w.rec).0.value > w.down.value.at.Floor
  }

  /** Such a run: `b` holds its lock while `c` registers and dies, then `b` registers. */
  lemma SplitClaimUnderReports()
    ensures exists run, w :: Reaches(NEW_NICK, run, w) && UnderReports(w)
  {
    var run :=
      [Claim("a", 1.0), Release("a", 10.0), Lock("b", 20.0), Claim("c", 21.0), Crash("c", 22.0), Register("b", 23.0)];
    var w1 := Next(NEW_NICK, run[0]);
    var w2 := Next(w1, run[1]);
    assert w2.live == {} && w2.down == Some(Down(10.0, true));
    var w3 := Next(w2, run[2]);
    var w4 := Next(w3, run[3]);
    assert w4.live == {"b", "c"} && w4.rec.value.lastSeen == 21;
    var w5 := Next(w4, run[4]);
    assert w5.live == {"b"} && w5.down == w2.down;
    var w6 := Next(w5, run[5]);
    assert w6.live - {"b"} == {} && w6.rec.value.previousSeen == Some(21);
    assert Reaches(w6, run[6..], w6);
    assert run[5..][1..] == run[6..] && Reaches(w5, run[5..], w6);
    assert run[4..][1..] == run[5..] && Reaches(w4, run[4..], w6);
    assert run[3..][1..] == run[4..] && Reaches(w3, run[3..], w6);
    assert run[2..][1..] == run[3..] && Reaches(w2, run[2..], w6);
    assert run[1..][1..] == run[2..] && Reaches(w1, run[1..], w6);
    assert Reaches(NEW_NICK, run, w6);
  }

  // ----- work-item events of a window -----

  datatype TaskRec = TaskRec(id: string, title: string, createdAt: Option<int>, createdBy: string,
                             claimedAt: Option<int>,
                             claimedBy: string, doneAt: Option<int>, state: Tasks.TaskState, target: string)

  datatype Kind = Created | WasClaimed | Finished | StillOpen

  datatype Event = Event(kind: Kind, task: string, at: Option<int>, who: string, mine: bool)

  /** `_in_window`: half-open, (since, now]. */
  predicate InWindow(ts: Option<int>, since: Option<int>, now: int) {
    ts.Some? && (since.None? || since.value < ts.value) && ts.value <= now
  }

  /** Addressed to the nick itself or to a room it stands in. */
  predicate IsMine(target: string, nick: string, channels: set<string>) {
    target != "" && (target == nick || DurableNick(target) == nick || (target[0] == '#' && target[1..] in channels))
  }

  function Transitions(r: TaskRec, mine: bool): seq<Event> {
    [Event(Created, r.id, r.createdAt, r.createdBy, mine),
     Event(WasClaimed, r.id, r.claimedAt, r.claimedBy, mine),
     Event(Finished, r.id, r.doneAt, r.claimedBy, mine)]
  }

  function Inside(since: Option<int>, now: int): Event -> bool { (e: Event) => InWindow(e.at, since, now) }

  function EventsOf(recs: seq<TaskRec>, nick: string, since: Option<int>, now: int, channels: set<string>): seq<Event> {
    if recs == [] then []
    else
      Filter(Inside(since, now), Transitions(recs[0], IsMine(recs[0].target, nick, channels))) +
      EventsOf(recs[1..], nick, since, now, channels)
  }

  function OpenFor(recs: seq<TaskRec>, nick: string, channels: set<string>): seq<Event> {
    if recs == [] then []
    else
      (if recs[0].state == Tasks.Open && IsMine(recs[0].target, nick, channels)
       then [Event(StillOpen, recs[0].id, recs[0].createdAt, recs[0].createdBy, true)] else []) +
      OpenFor(recs[1..], nick, channels)
  }

  /** Absent timestamps never reach the sort; they come first to make the order total. */
  predicate NoLater(a: Event, b: Event) { a.at.None? || (b.at.Some? && a.at.value <= b.at.value) }

  function Earlier(): (Event, Event) -> bool { NoLater }

  method CollectTasks(recs: seq<TaskRec>, nick: string, since: Option<int>, now: int, channels: set<string>)
    returns (events: seq<Event>, openMine: seq<Event>)
    ensures events == StableSort(Earlier(), EventsOf(recs, nick, since, now, channels))
    ensures openMine == OpenFor(recs, nick, channels)
  {
    events, openMine := [], [];
    assert recs[0..] == recs;
    var i := 0;
    while i < |recs|
      invariant 0 <= i <= |recs|
      invariant Listing(recs, nick, since, now, channels, i, events, openMine)
    {
      var rec := recs[i];
      var mine := IsMine(rec.target, nick, channels);
      var found := InWindowOnly(Transitions(rec, mine), since, now);
      var own :=
        if rec.state == Tasks.Open && mine then [Event(StillOpen, rec.id, rec.createdAt, rec.createdBy, true)] else [];
      ListingStep(recs, nick, since, now, channels, i, events, openMine);
      events, openMine := events + found, openMine + own;
      i := i + 1;
    }
    assert recs[i..] == [] && EventsOf([], nick, since, now, channels) == [] && OpenFor([], nick, channels) == [];
    assert events == EventsOf(recs, nick, since, now, channels);
    events := StableSort(Earlier(), events);
  }

  /** The loop invariant: what is collected so far and what the rest will add. */
  ghost predicate Listing(recs: seq<TaskRec>, nick: string, since: Option<int>, now: int, channels: set<string>,
                          i: nat, events: seq<Event>, openMine: seq<Event>)
    requires i <= |recs|
  {
    && events + EventsOf(recs[i..], nick, since, now, channels) == EventsOf(recs, nick, since, now, channels)
    && openMine + OpenFor(recs[i..], nick, channels) == OpenFor(recs, nick, channels)
  }

  lemma ListingStep(recs: seq<TaskRec>, nick: string, since: Option<int>, now: int, channels: set<string>,
                    i: nat, events: seq<Event>, openMine: seq<Event>)
    requires i < |recs| && Listing(recs, nick, since, now, channels, i, events, openMine)
    ensures
      var mine := IsMine(recs[i].target, nick, channels);
      Listing(recs, nick, since, now, channels, i + 1,
              events + Filter(Inside(since, now), Transitions(recs[i], mine)),
              openMine + if recs[i].state == Tasks.Open && mine
                         then [Event(StillOpen, recs[i].id, recs[i].createdAt, recs[i].createdBy, true)] else [])
  {
    assert recs[i..][1..] == recs[i + 1..];
    var mine := IsMine(recs[i].target, nick, channels);
    Regroup(events, Filter(Inside(since, now), Transitions(recs[i], mine)),
      EventsOf(recs[i + 1..], nick, since, now, channels));
  }

  method InWindowOnly(all: seq<Event>, since: Option<int>, now: int) returns (found: seq<Event>)
    ensures found == Filter(Inside(since, now), all)
  {
    found := [];
    assert all[0..] == all;
    var i := 0;
    while i < |all|
      invariant 0 <= i <= |all|
      invariant found + Filter(Inside(since, now), all[i..]) == Filter(Inside(since, now), all)
    {
      assert all[i..][1..] == all[i + 1..];
      if InWindow(all[i].at, since, now) {
        found := found + [all[i]];
      }
      i := i + 1;
    }
  }

  /** The event reports one of the record's three stamps, with the agent that made it. */
  predicate Tells(e: Event, r: TaskRec, nick: string, channels: set<string>) {
    && e.task == r.id && e.mine == IsMine(r.target, nick, channels)
    && match e.kind
       case Created => e.at == r.createdAt && e.who == r.createdBy
       case WasClaimed => e.at == r.claimedAt && e.who == r.claimedBy
       case Finished => e.at == r.doneAt && e.who == r.claimedBy
       case StillOpen => false
  }

  /** The list holds exactly the stamps of the records that lie after `since`, up to `now`. */
  lemma {:induction false} EventsElements(recs: seq<TaskRec>, nick: string, since: Option<int>, now: int,
                                          channels: set<string>)
    ensures forall e :: e in EventsOf(recs, nick, since, now, channels) <==>
      && e.at.Some? && e.at.value <= now && (since.Some? ==> since.value < e.at.value)
      && exists r :: r in recs && Tells(e, r, nick, channels)
  {
    if recs != [] {
      var r0 := recs[0];
      var told := Transitions(r0, IsMine(r0.target, nick, channels));
      EventsElements(recs[1..], nick, since, now, channels);
      FilterElements(Inside(since, now), told);
      assert recs == [r0] + recs[1..];
      forall e ensures e in told <==> Tells(e, r0, nick, channels) {
        assert told[0].kind == Created && told[1].kind == WasClaimed && told[2].kind == Finished;
        assert e in told <==> e == told[0] || e == told[1] || e == told[2];
      }
    }
  }

  ghost predicate DistinctIds(recs: seq<TaskRec>) {
    forall i, j :: 0 <= i < j < |recs| ==> recs[i].id != recs[j].id
  }

  /** And each of them once. */
  lemma {:induction false} EventsDistinct(recs: seq<TaskRec>, nick: string, since: Option<int>, now: int,
                                          channels: set<string>)
    requires DistinctIds(recs)
    ensures Distinct(EventsOf(recs, nick, since, now, channels))
  {
    if recs != [] {
      var told := Transitions(recs[0], IsMine(recs[0].target, nick, channels));
      var mine, rest := Filter(Inside(since, now), told), EventsOf(recs[1..], nick, since, now, channels);
      EventsDistinct(recs[1..], nick, since, now, channels);
      EventsElements(recs[1..], nick, since, now, channels);
      DistinctFilter(Inside(since, now), told);
      FilterElements(Inside(since, now), told);
      forall i, j | 0 <= i < |mine| && 0 <= j < |rest| ensures mine[i] != rest[j] {
        assert mine[i] in told && rest[j] in rest;
      }
    }
  }

  /** Addressed to the nick means: to the nick, to one of its sessions, or to a room it is in. */
  lemma MineIff(target: string, nick: string, channels: set<string>)
    requires nick != ""
    ensures IsMine(target, nick, channels) <==>
      target == nick || IsSessionOf(nick, target) || exists c :: c in channels && target == "#" + c
  {
    SessionIffDurable(nick, target);
    if target != "" && target[0] == '#' && target[1..] in channels {
      assert target == "#" + target[1..];
    }
  }

  /** The open list holds exactly the open items addressed to the nick. */
  lemma {:induction false} OpenElements(recs: seq<TaskRec>, nick: string, channels: set<string>)
    ensures forall e :: e in OpenFor(recs, nick, channels) <==>
      exists r :: r in recs && r.state == Tasks.Open && IsMine(r.target, nick, channels) &&
        e == Event(StillOpen, r.id, r.createdAt, r.createdBy, true)
  {
    if recs != [] {
      OpenElements(recs[1..], nick, channels);
      assert recs == [recs[0]] + recs[1..];
    }
  }

  lemma EarlierPreorder()
    ensures TotalPreorder(Earlier())
  {
    forall a, b ensures Earlier()(a, b) || Earlier()(b, a) {
      assert NoLater(a, b) || NoLater(b, a);
    }
    forall a, b, c | Earlier()(a, b) && Earlier()(b, c) ensures Earlier()(a, c) {
      assert NoLater(a, b) && NoLater(b, c);
    }
  }

  /** What a live nick's digest lists of the work items, after a run. */
  ghost function TaskList(w: World, recs: seq<TaskRec>, nick: string, now: int, channels: set<string>): seq<Event> {
    StableSort(Earlier(), EventsOf(recs, nick, Watermark(w.rec).0, now, channels))
  }

  ghost predicate OldestFirst(events: seq<Event>) {
    forall i, j :: 0 <= i < j < |events| ==>
      events[i].at.Some? && events[j].at.Some? && events[i].at.value <= events[j].at.value
  }

  lemma TaskListElements(w: World, recs: seq<TaskRec>, nick: string, now: int, channels: set<string>)
    ensures
      var events, since := TaskList(w, recs, nick, now, channels), Watermark(w.rec).0;
      && OldestFirst(events) && (DistinctIds(recs) ==> Distinct(events))
      && forall e :: e in events <==>
           && e.at.Some? && e.at.value <= now && (since.Some? ==> since.value < e.at.value)
           && exists r :: r in recs && Tells(e, r, nick, channels)
  {
    var since := Watermark(w.rec).0;
    var found := EventsOf(recs, nick, since, now, channels);
    EventsElements(recs, nick, since, now, channels);
    EarlierPreorder();
    SortSorted(Earlier(), found);
    SortMultiset(Earlier(), found);
    var events := StableSort(Earlier(), found);
    forall i, j | 0 <= i < j < |events|
      ensures events[i].at.Some? && events[j].at.Some? && events[i].at.value <= events[j].at.value
    {
      assert events[i] in found && events[j] in found && Earlier()(events[i], events[j]);
    }
    if DistinctIds(recs) {
      EventsDistinct(recs, nick, since, now, channels);
      DistinctPermuted(found, StableSort(Earlier(), found));
    }
  }

  /** The digest under-reports nothing: after any run, a live nick's task list holds the
      creation, the claim and the completion of each item, with its stamp and its agent,
      wherever that stamp lies after the second in which the nick last went down, up to now.
      Where no two records share an id it holds each once, and the list is in time order. */
  lemma NothingMissed(run: seq<Step>, w: World, recs: seq<TaskRec>, nick: string, now: int, channels: set<string>,
                      r: TaskRec)
    requires Reaches(NEW_NICK, run, w) && WholeClaims(run) && w.live != {} && w.down.Some? && r in recs
    ensures
      var events, mine := TaskList(w, recs, nick, now, channels), IsMine(r.target, nick, channels);
      var down := w.down.value.at.Floor;
      && OldestFirst(events) && (DistinctIds(recs) ==> Distinct(events))
      && (r.createdAt.Some? && down < r.createdAt.value <= now ==>
            Event(Created, r.id, r.createdAt, r.createdBy, mine) in events)
      && (r.claimedAt.Some? && down < r.claimedAt.value <= now ==>
            Event(WasClaimed, r.id, r.claimedAt, r.claimedBy, mine) in events)
      && (r.doneAt.Some? && down < r.doneAt.value <= now ==>
            Event(Finished, r.id, r.doneAt, r.claimedBy, mine) in events)
  {
    var mine := IsMine(r.target, nick, channels);
    WatermarkNeverLate(run, w);
    TaskListElements(w, recs, nick, now, channels);
    assert Tells(Event(Created, r.id, r.createdAt, r.createdBy, mine), r, nick, channels);
    assert Tells(Event(WasClaimed, r.id, r.claimedAt, r.claimedBy, mine), r, nick, channels);
    assert Tells(Event(Finished, r.id, r.doneAt, r.claimedBy, mine), r, nick, channels);
  }

  /** Nor does it invent anything: each entry reports a stamp of one of the records, no later
      than now and, after a clean exit, later than the second of that exit. */
  lemma NothingInvented(run: seq<Step>, w: World, recs: seq<TaskRec>, nick: string, now: int, channels: set<string>,
                        e: Event)
    requires Reaches(NEW_NICK, run, w) && WholeClaims(run) && w.live != {} && w.down.Some?
    requires e in TaskList(w, recs, nick, now, channels)
    ensures e.at.Some? && e.at.value <= now && (w.down.value.clean ==> w.down.value.at.Floor < e.at.value)
    ensures exists r ::
      && r in recs && e.task == r.id && e.mine == IsMine(r.target, nick, channels)
      && (|| (e.kind == Created && e.at == r.createdAt && e.who == r.createdBy)
          || (e.kind == WasClaimed && e.at == r.claimedAt && e.who == r.claimedBy)
          || (e.kind == Finished && e.at == r.doneAt && e.who == r.claimedBy))
  {
    WatermarkNeverLate(run, w);
    TaskListElements(w, recs, nick, now, channels);
    var r :| r in recs && Tells(e, r, nick, channels);
  }

  /** Stamps have whole seconds: after a clean exit, an event later in the same second as
      the exit is the one thing left out. */
  lemma SameSecondLeftOut(run: seq<Step>, w: World, x: real, now: real)
    requires Reaches(NEW_NICK, run, w) && WholeClaims(run) && w.live != {} && w.down.Some? && w.down.value.clean
    requires w.down.value.at < x <= now
    ensures InWindow(Some(x.Floor), Watermark(w.rec).0, now.Floor) <==> x.Floor != w.down.value.at.Floor
  {
    WatermarkNeverLate(run, w);
  }
}
