/** When a message gets a second lane record: exactly when a pass writes an id some lane
    already carries, and which runs never do (git_bridge.py, dispatch_fs.py). */
module LoopFreedom {
  import opened Ids
  import opened Messages
  import opened Order
  import opened Lanes
  import opened Replication
  import opened Bus
  import Transport

  // ----- one pass -----

  function Start(host: Host): Outbox { Outbox(host.lanes, host.ledger, 0, false) }

  /** Host `h`'s pass writes a record for an id that some lane already carries. */
  ghost predicate Republishes(g: Bus, h: nat, names: seq<string>, cfg: OutCfg)
    requires Homed(g) && h in g.hosts
  {
    exists id :: Carried(g, id) &&
      Publishes(Start(g.hosts[h]), LocalMessages(g.hosts[h].inboxes, names), cfg, id)
  }

  lemma {:induction false} AddsForAuthors(o: Outbox, msgs: seq<Msg>, cfg: OutCfg, lane: Lane, i: nat, id: string)
    requires Adds(o.clone, PublishAll(o, msgs, cfg).clone, lane, i, id)
    ensures exists m :: m in msgs && m.from_ == lane.author && m.id == id
    decreases |msgs|
  {
    if msgs != [] {
      var o1 := PublishOne(o, msgs[0], cfg);
      PassSplits(o, msgs, cfg, lane, i, id);
      TurnAdds(o, msgs[0], cfg, lane, i, id);
      assert msgs[0] in msgs;
      if Adds(o1.clone, PublishAll(o1, msgs[1..], cfg).clone, lane, i, id) {
        AddsForAuthors(o1, msgs[1..], cfg, lane, i, id);
        var m :| m in msgs[1..] && m.from_ == lane.author && m.id == id;
        assert m in msgs;
      }
    }
  }

  /** A pass only adds to lanes of the host's own authors. */
  lemma AddsAtHome(g: Bus, h: nat, names: seq<string>, cfg: OutCfg, lane: Lane, i: nat, id: string)
    requires Sound(g) && Enabled(g, Step.Outbound(h, names, cfg))
    requires Adds(g.hosts[h].lanes, Out(g.hosts[h], names, cfg).clone, lane, i, id)
    ensures g.home(lane.author) == h
  {
    var host := g.hosts[h];
    var msgs := LocalMessages(host.inboxes, names);
    AddsForAuthors(Start(host), msgs, cfg, lane, i, id);
    ScannedIsPlaced(host, names);
    var m :| m in msgs && m.from_ == lane.author;
    assert GoodFile(g, h, m);
  }

  /** What a pass adds to what the bus carries. */
  lemma OutboundCarries(g: Bus, h: nat, names: seq<string>, cfg: OutCfg, lane: Lane, i: nat, id: string)
    requires Sound(g) && Enabled(g, Step.Outbound(h, names, cfg))
    ensures
      var g' := Next(g, Step.Outbound(h, names, cfg));
      && Homed(g')
      && (Carries(g', lane, i, id) <==>
          Carries(g, lane, i, id) || Adds(g.hosts[h].lanes, Out(g.hosts[h], names, cfg).clone, lane, i, id))
    ensures Adds(g.hosts[h].lanes, Out(g.hosts[h], names, cfg).clone, lane, i, id) ==> !Carries(g, lane, i, id)
  {
    var host := g.hosts[h];
    PublishAllGrows(Start(host), LocalMessages(host.inboxes, names), cfg);
    if Adds(host.lanes, Out(host, names, cfg).clone, lane, i, id) {
      AddsAtHome(g, h, names, cfg, lane, i, id);
    }
    assert LinesOf(host.lanes, lane) <= LinesOf(Out(host, names, cfg).clone, lane);
  }

  lemma AddedIsPublished(g: Bus, h: nat, names: seq<string>, cfg: OutCfg, lane: Lane, i: nat, id: string)
    requires Homed(g) && h in g.hosts && Adds(g.hosts[h].lanes, Out(g.hosts[h], names, cfg).clone, lane, i, id)
    ensures Carried(g, id) ==> Republishes(g, h, names, cfg)
  {
    var o, msgs := Start(g.hosts[h]), LocalMessages(g.hosts[h].inboxes, names);
    PassAddsIff(o, msgs, cfg, id);
    assert exists l, j: nat :: Adds(o.clone, PublishAll(o, msgs, cfg).clone, l, j, id) by {
      assert Adds(o.clone, PublishAll(o, msgs, cfg).clone, lane, i, id);
    }
  }

  lemma AddedOnce(host: Host, names: seq<string>, cfg: OutCfg, lane: Lane, i: nat, lane': Lane, i': nat, id: string)
    requires Adds(host.lanes, Out(host, names, cfg).clone, lane, i, id)
    requires Adds(host.lanes, Out(host, names, cfg).clone, lane', i', id)
    ensures lane == lane' && i == i'
  {
    var o, msgs := Start(host), LocalMessages(host.inboxes, names);
    PassAddsIff(o, msgs, cfg, id);
    var end := PublishAll(o, msgs, cfg).clone;
    assert Adds(o.clone, end, lane, i, id) && Adds(o.clone, end, lane', i', id);
  }

  /** A pass keeps one record per id exactly when there was one and it republishes nothing. */
  lemma OutboundOneRecordIff(g: Bus, h: nat, names: seq<string>, cfg: OutCfg)
    requires Sound(g) && Enabled(g, Step.Outbound(h, names, cfg))
    ensures
      var g' := Next(g, Step.Outbound(h, names, cfg));
      Homed(g') && (OneRecord(g') <==> OneRecord(g) && !Republishes(g, h, names, cfg))
  {
    var g' := Next(g, Step.Outbound(h, names, cfg));
    forall lane, i: nat, id ensures Carries(g, lane, i, id) ==> Carries(g', lane, i, id) {
      OutboundCarries(g, h, names, cfg, lane, i, id);
    }
    if Republishes(g, h, names, cfg) {
      RepublishedTwice(g, h, names, cfg);
    } else if OneRecord(g) {
      forall lane, i: nat, lane', i': nat, id | Carries(g', lane, i, id) && Carries(g', lane', i', id)
        ensures lane == lane' && i == i'
      {
        NotRepublishedOnce(g, h, names, cfg, lane, i, lane', i', id);
      }
    }
  }

  lemma RepublishedTwice(g: Bus, h: nat, names: seq<string>, cfg: OutCfg)
    requires Sound(g) && Enabled(g, Step.Outbound(h, names, cfg)) && Republishes(g, h, names, cfg)
    ensures
      var g' := Next(g, Step.Outbound(h, names, cfg));
      Homed(g') && !OneRecord(g')
  {
    var o, msgs := Start(g.hosts[h]), LocalMessages(g.hosts[h].inboxes, names);
    var id :| Carried(g, id) && Publishes(o, msgs, cfg, id);
    PassAddsIff(o, msgs, cfg, id);
    var lane, i: nat :| Adds(o.clone, PublishAll(o, msgs, cfg).clone, lane, i, id);
    var lane', i': nat :| Carries(g, lane', i', id);
    OutboundCarries(g, h, names, cfg, lane, i, id);
    OutboundCarries(g, h, names, cfg, lane', i', id);
  }

  lemma NotRepublishedOnce(g: Bus, h: nat, names: seq<string>, cfg: OutCfg, lane: Lane, i: nat, lane': Lane, i': nat,
                           id: string)
    requires Sound(g) && OneRecord(g) && Enabled(g, Step.Outbound(h, names, cfg)) && !Republishes(g, h, names, cfg)
    requires
      var g' := Next(g, Step.Outbound(h, names, cfg));
      Homed(g') && Carries(g', lane, i, id) && Carries(g', lane', i', id)
    ensures lane == lane' && i == i'
  {
    OutboundCarries(g, h, names, cfg, lane, i, id);
    OutboundCarries(g, h, names, cfg, lane', i', id);
    assert Carries(g, lane, i, id) || Carries(g, lane', i', id) ==> Carried(g, id);
    if !Carries(g, lane, i, id) {
      AddedIsPublished(g, h, names, cfg, lane, i, id);
    }
    if !Carries(g, lane', i', id) {
      AddedIsPublished(g, h, names, cfg, lane', i', id);
    }
    if !Carried(g, id) {
      AddedOnce(g.hosts[h], names, cfg, lane, i, lane', i', id);
    }
  }

  // ----- every run -----

  /** The step writes no second record. */
  ghost predicate Orderly(g: Bus, s: Step)
    requires Homed(g) && Enabled(g, s)
  {
    s.Outbound? ==> !Republishes(g, s.h, s.names, s.cfg)
  }

  ghost predicate OrderlyRun(g: Bus, run: seq<Step>, g': Bus)
    requires Homed(g) && Reaches(g, run, g')
    decreases |run|
  {
    run == [] || (Orderly(g, run[0]) && OrderlyRun(Next(g, run[0]), run[1..], g'))
  }

  lemma StepOneRecordIff(g: Bus, s: Step)
    requires Sound(g) && Enabled(g, s)
    ensures Sound(Next(g, s))
    ensures OneRecord(Next(g, s)) <==> OneRecord(g) && Orderly(g, s)
  {
    StepKeepsSound(g, s);
    if s.Outbound? {
      OutboundOneRecordIff(g, s.h, s.names, s.cfg);
    } else {
      QuietStep(g, s);
    }
  }

  /** Every run, whatever raises, fails in git, restarts or is forgotten in it: there is one
      record per id at its end exactly when there was at its start and no pass republished. */
  lemma {:induction false} OneRecordIff(g: Bus, run: seq<Step>, g': Bus)
    requires Sound(g) && Reaches(g, run, g')
    ensures Sound(g')
    ensures OneRecord(g') <==> OneRecord(g) && OrderlyRun(g, run, g')
    decreases |run|
  {
    if run != [] {
      StepOneRecordIff(g, run[0]);
      OneRecordIff(Next(g, run[0]), run[1..], g');
    }
  }

  /** The first message scanned with this id is one the bus is for. */
  ghost predicate ForTheBus(msgs: seq<Msg>, cfg: OutCfg, id: string) {
    exists k: nat :: FirstAt(msgs, id, k) && BusBound(msgs[k], cfg.live, cfg.mirrorAll)
  }

  /** The guard of a pass that gets through: it republishes exactly when it scans a copy of a
      carried id that is not in the ledger, and the first such copy is for the bus. */
  lemma CleanRepublishesIff(g: Bus, h: nat, names: seq<string>, cfg: OutCfg)
    requires Sound(g) && Enabled(g, Step.Outbound(h, names, cfg)) && !Out(g.hosts[h], names, cfg).raised
    ensures Republishes(g, h, names, cfg) <==>
      exists id :: Carried(g, id) && id !in g.hosts[h].ledger &&
        ForTheBus(LocalMessages(g.hosts[h].inboxes, names), cfg, id)
  {
    var msgs := LocalMessages(g.hosts[h].inboxes, names);
    forall id | Carried(g, id)
      ensures Publishes(Start(g.hosts[h]), msgs, cfg, id) <==> id !in g.hosts[h].ledger && ForTheBus(msgs, cfg, id)
    {
      var lane, i: nat :| Carries(g, lane, i, id);
      assert GoodRecord(g, lane, i);
      CleanPassPublishesIff(Start(g.hosts[h]), msgs, cfg, id);
    }
    if Republishes(g, h, names, cfg) {
      var id :| Carried(g, id) && Publishes(Start(g.hosts[h]), msgs, cfg, id);
    }
  }

  // ----- what suffices: passes get through, and pruning never outruns the files -----

  ghost predicate Careful(g: Bus, s: Step)
    requires Homed(g) && Enabled(g, s)
  {
    match s
    case Outbound(h, names, cfg) =>
      var o := Out(g.hosts[h], names, cfg);
      !o.raised && (o.published > 0 ==> Homed(Next(g, s)) && PruneSafe(Next(g, s), h, o.ledger, cfg.now))
    case Restart(h, now) => PruneSafe(g, h, g.hosts[h].saved, now)
    case _ => true
  }

  ghost predicate CarefulRun(g: Bus, run: seq<Step>, g': Bus)
    requires Homed(g) && Reaches(g, run, g')
    decreases |run|
  {
    run == [] || (Careful(g, run[0]) && CarefulRun(Next(g, run[0]), run[1..], g'))
  }

  lemma {:induction false} AddsCounts(o: Outbox, msgs: seq<Msg>, cfg: OutCfg, lane: Lane, i: nat, id: string)
    requires !PublishAll(o, msgs, cfg).raised && Adds(o.clone, PublishAll(o, msgs, cfg).clone, lane, i, id)
    ensures PublishAll(o, msgs, cfg).published > o.published
    decreases |msgs|
  {
    if msgs != [] {
      var o1 := PublishOne(o, msgs[0], cfg);
      PassSplits(o, msgs, cfg, lane, i, id);
      PublishAllGrows(o1, msgs[1..], cfg);
      if o1.raised {
        RaisedStays(o1, msgs[1..], cfg);
      } else if o1.published == o.published {
        TurnAdds(o, msgs[0], cfg, lane, i, id);
        AddsCounts(o1, msgs[1..], cfg, lane, i, id);
      }
    }
  }

  /** What a pass that got through added, it counted and ledgered. */
  lemma AddedIsLedgered(g: Bus, h: nat, names: seq<string>, cfg: OutCfg, lane: Lane, i: nat, id: string)
    requires h in g.hosts && !Out(g.hosts[h], names, cfg).raised
    requires Adds(g.hosts[h].lanes, Out(g.hosts[h], names, cfg).clone, lane, i, id)
    ensures id in Out(g.hosts[h], names, cfg).ledger && Out(g.hosts[h], names, cfg).published > 0
  {
    var o, msgs := Start(g.hosts[h]), LocalMessages(g.hosts[h].inboxes, names);
    assert Adds(o.clone, PublishAll(o, msgs, cfg).clone, lane, i, id);
    AddsCounts(o, msgs, cfg, lane, i, id);
    PassAddsIff(o, msgs, cfg, id);
    var k: nat :| FirstAt(msgs, id, k) && WritesAt(o, msgs, cfg, k);
    assert msgs[k] in msgs;
    PublishAllLedgers(o, msgs, cfg);
  }

  lemma CarefulRemembers(g: Bus, s: Step)
    requires Sound(g) && Remembered(g) && Enabled(g, s) && Careful(g, s)
    ensures Sound(Next(g, s)) && Remembered(Next(g, s))
  {
    if s.Outbound? {
      StepKeepsSound(g, s);
      var g' := Next(g, s);
      forall lane, i: nat, id | Carries(g', lane, i, id) ensures
        var host := g'.hosts[g'.home(lane.author)];
        (id in host.ledger && id in host.saved) || !Exportable(host.inboxes, id)
      {
        PassRemembers(g, s.h, s.names, s.cfg, lane, i, id);
      }
    } else {
      QuietStep(g, s);
    }
  }

  lemma PassRemembers(g: Bus, h: nat, names: seq<string>, cfg: OutCfg, lane: Lane, i: nat, id: string)
    requires Sound(g) && Remembered(g) && Enabled(g, Step.Outbound(h, names, cfg)) &&
      Careful(g, Step.Outbound(h, names, cfg))
    requires
      var g' := Next(g, Step.Outbound(h, names, cfg));
      Homed(g') && Carries(g', lane, i, id)
    ensures
      var host := Next(g, Step.Outbound(h, names, cfg)).hosts[g.home(lane.author)];
      (id in host.ledger && id in host.saved) || !Exportable(host.inboxes, id)
  {
    var g' := Next(g, Step.Outbound(h, names, cfg));
    var o := Out(g.hosts[h], names, cfg);
    OutboundCarries(g, h, names, cfg, lane, i, id);
    PublishAllGrows(Start(g.hosts[h]), LocalMessages(g.hosts[h].inboxes, names), cfg);
    assert Carried(g', id);
    if Adds(g.hosts[h].lanes, o.clone, lane, i, id) {
      AddsAtHome(g, h, names, cfg, lane, i, id);
      AddedIsLedgered(g, h, names, cfg, lane, i, id);
    }
  }

  /** A bus that remembers does not republish, even in a pass that raises. */
  lemma RememberedIsOrderly(g: Bus, s: Step)
    requires Sound(g) && Remembered(g) && Enabled(g, s)
    ensures Orderly(g, s)
  {
    if s.Outbound? {
      var host := g.hosts[s.h];
      var o, msgs := Start(host), LocalMessages(host.inboxes, s.names);
      forall id | Carried(g, id) ensures !Publishes(o, msgs, s.cfg, id) {
        CarriedNotPublished(g, s.h, s.names, s.cfg, id);
      }
    }
  }

  lemma CarriedNotPublished(g: Bus, h: nat, names: seq<string>, cfg: OutCfg, id: string)
    requires Sound(g) && Remembered(g) && Enabled(g, Step.Outbound(h, names, cfg)) && Carried(g, id)
    ensures !Publishes(Start(g.hosts[h]), LocalMessages(g.hosts[h].inboxes, names), cfg, id)
  {
    var host := g.hosts[h];
    var o, msgs := Start(host), LocalMessages(host.inboxes, names);
    var lane, i: nat :| Carries(g, lane, i, id);
    CarriedIsBorn(g, lane, i, id);
    ScannedIsPlaced(host, names);
    forall k: nat | FirstAt(msgs, id, k) ensures !WritesAt(o, msgs, cfg, k) {
      assert msgs[k] in msgs;
      assert GoodFile(g, h, msgs[k]);
      PublishAllGrows(o, msgs[..k], cfg);
    }
  }

  lemma {:induction false} CarefulRunIsOrderly(g: Bus, run: seq<Step>, g': Bus)
    requires Sound(g) && Remembered(g) && Reaches(g, run, g') && CarefulRun(g, run, g')
    ensures OrderlyRun(g, run, g') && Sound(g') && Remembered(g')
    decreases |run|
  {
    if run != [] {
      RememberedIsOrderly(g, run[0]);
      CarefulRemembers(g, run[0]);
      CarefulRunIsOrderly(Next(g, run[0]), run[1..], g');
    }
  }

  // ----- the same on stamps and clocks -----

  /** No carried id whose copy is still there has an entry older than the ledger's TTL. */
  ghost predicate AllYoung(g: Bus, h: nat, ledger: Ledger, now: real)
    requires Homed(g) && h in g.hosts
  {
    forall id :: id in ledger && Carried(g, id) && Exportable(g.hosts[h].inboxes, id) ==>
      now - ledger[id] <= LEDGER_TTL_SECONDS
  }

  /** A pass gets through, and when it saves, as when a host restarts, the entries of carried
      ids with a copy still there are within the TTL. */
  ghost predicate Timely(g: Bus, s: Step)
    requires Homed(g) && Enabled(g, s)
  {
    match s
    case Outbound(h, names, cfg) =>
      var o := Out(g.hosts[h], names, cfg);
      !o.raised && (o.published > 0 ==> Homed(Next(g, s)) && AllYoung(Next(g, s), h, o.ledger, cfg.now))
    case Restart(h, now) => AllYoung(g, h, g.hosts[h].saved, now)
    case _ => true
  }

  ghost predicate TimelyRun(g: Bus, run: seq<Step>, g': Bus)
    requires Homed(g) && Reaches(g, run, g')
    decreases |run|
  {
    run == [] || (Timely(g, run[0]) && TimelyRun(Next(g, run[0]), run[1..], g'))
  }

  lemma YoungIsSafe(g: Bus, h: nat, ledger: Ledger, now: real)
    requires Homed(g) && h in g.hosts && AllYoung(g, h, ledger, now)
    ensures PruneSafe(g, h, ledger, now)
  {
    PrunedKeepsYoung(ledger, now);
  }

  lemma TimelyIsCareful(g: Bus, s: Step)
    requires Sound(g) && Enabled(g, s) && Timely(g, s)
    ensures Careful(g, s)
  {
    match s
    case Outbound(h, names, cfg) =>
      var o := Out(g.hosts[h], names, cfg);
      if o.published > 0 {
        YoungIsSafe(Next(g, s), h, o.ledger, cfg.now);
      }
    case Restart(h, now) => YoungIsSafe(g, h, g.hosts[h].saved, now);
    case _ =>
  }

  lemma {:induction false} TimelyRunIsCareful(g: Bus, run: seq<Step>, g': Bus)
    requires Sound(g) && Reaches(g, run, g') && TimelyRun(g, run, g')
    ensures CarefulRun(g, run, g')
    decreases |run|
  {
    if run != [] {
      TimelyIsCareful(g, run[0]);
      StepKeepsSound(g, run[0]);
      TimelyRunIsCareful(Next(g, run[0]), run[1..], g');
    }
  }

  /** The fourteen-day rule suffices: from an empty bus, while passes get through and no
      published id whose copy is still there is older than the TTL at a save or a restart,
      every id has one record. */
  lemma TimelyRunsKeepOneRecord(g: Bus, run: seq<Step>, g': Bus)
    requires Initial(g) && Reaches(g, run, g') && TimelyRun(g, run, g')
    ensures Homed(g') && OneRecord(g')
  {
    InitialSound(g);
    TimelyRunIsCareful(g, run, g');
    CarefulRunIsOrderly(g, run, g');
    OneRecordIff(g, run, g');
  }

  /** And after a save or a restart nothing older is left in memory, nor on disk after a save. */
  lemma NothingOldLeft(g: Bus, s: Step)
    requires Homed(g) && Enabled(g, s)
    ensures s.Restart? ==> KeptYoung(g.hosts[s.h].saved, s.now, Next(g, s).hosts[s.h].ledger)
    ensures
      s.Outbound? && !Out(g.hosts[s.h], s.names, s.cfg).raised && Out(g.hosts[s.h], s.names, s.cfg).published > 0 ==>
      var host := Next(g, s).hosts[s.h];
      host.ledger == host.saved && KeptYoung(Out(g.hosts[s.h], s.names, s.cfg).ledger, s.cfg.now, host.ledger)
  {
    if s.Restart? {
      PrunedKeepsYoung(g.hosts[s.h].saved, s.now);
    } else if s.Outbound? {
      PrunedKeepsYoung(Out(g.hosts[s.h], s.names, s.cfg).ledger, s.cfg.now);
    }
  }

  // ----- loop freedom -----

  /** A record of a message sent here: it crossed no bridge before, it was for the bus, and it
      is addressed as the message is. */
  predicate Proper(line: Line) {
    && line.Record? && line.env.body.Some? && !Bridged(line.env.body.value)
    && Envelope(line.env, line.env.body.value) && BusBound(line.env.body.value, {}, true)
  }

  /** From an empty bus, after any run: what crossed a bridge never goes back on a lane, each
      record is that of a message for the bus, and clones never disagree with the author. There
      is one record per id exactly when no pass republished, and none does while passes get
      through and pruning waits for the files. */
  lemma LoopFree(g: Bus, run: seq<Step>, g': Bus)
    requires Initial(g) && Reaches(g, run, g')
    ensures Homed(g')
    ensures forall lane, i: nat | i < |AuthorLane(g', lane)| :: Proper(AuthorLane(g', lane)[i])
    ensures forall h, lane | h in g'.hosts :: LinesOf(g'.hosts[h].lanes, lane) <= AuthorLane(g', lane)
    ensures OneRecord(g') <==> OrderlyRun(g, run, g')
    ensures CarefulRun(g, run, g') ==> OneRecord(g')
  {
    InitialSound(g);
    OneRecordIff(g, run, g');
    forall lane, i: nat | i < |AuthorLane(g', lane)| ensures Proper(AuthorLane(g', lane)[i]) {
      assert GoodRecord(g', lane, i);
    }
    if CarefulRun(g, run, g') {
      CarefulRunIsOrderly(g, run, g');
    }
  }

  // ----- a run that does republish -----

  lemma {:induction false} ReachesThen(g: Bus, run: seq<Step>, g1: Bus, s: Step)
    requires Homed(g) && Reaches(g, run, g1) && Homed(g1) && Enabled(g1, s) && Homed(Next(g1, s))
    ensures Reaches(g, run + [s], Next(g1, s))
    decreases |run|
  {
    if run == [] {
      assert [s][1..] == [];
    } else {
      assert (run + [s])[1..] == run[1..] + [s];
      ReachesThen(Next(g, run[0]), run[1..], g1, s);
    }
  }

  /** A local message to one agent, as `send_message` writes it. */
  predicate Direct(m: Msg) {
    && m.via == Messages.Local && m.state == Pending && m.id != ""
    && ValidId(m.from_) && ValidId(m.to) && m.to != "all" && OneLine(m.thread)
  }

  /** A pass at `now` with nobody live and nothing failing. */
  function Plain(now: real): OutCfg { OutCfg({}, false, _ => Stamp("", 0, NoFault), now) }

  lemma DirectIsPublished(o: Outbox, m: Msg, now: real)
    requires Direct(m) && !o.raised && m.id !in o.ledger
    ensures
      var o1 := PublishOne(o, m, Plain(now));
      && !o1.raised && o1.ledger == o.ledger[m.id := now] && o1.published == o.published + 1
      && InClone(o1.clone, Dm(m.from_), |LinesOf(o.clone, Dm(m.from_))|, m.id)
    ensures Writes(o, m, Plain(now))
  {
    assert m.to[0] != '#';
  }

  lemma ScanOfOne(inboxes: Inboxes, to: string, msgs: seq<Msg>)
    requires inboxes == map[to := msgs] && forall m :: m in msgs ==> Mirrored(m)
    ensures LocalMessages(inboxes, [to]) == msgs && Names(inboxes, [to])
  {
    FilterAll(MirroredOnly(), msgs);
    assert [to][1..] == [];
  }

  /** The first pass publishes `m`; the second, later than the ledger remembers, publishes
      `x` and prunes the entry of `m`; the third publishes `m` once more. */
  lemma FirstPass(host: Host, m: Msg)
    requires host == Host(map[m.to := [m]], map[], map[], map[], map[]) && Direct(m)
    ensures
      var next := AfterOutbound(host, [m.to], Plain(0.0));
      next.ledger == map[m.id := 0.0] == next.saved && InClone(next.lanes, Dm(m.from_), 0, m.id)
  {
    ScanOfOne(host.inboxes, m.to, [m]);
    OneTurn(Start(host), m, Plain(0.0));
    DirectIsPublished(Start(host), m, 0.0);
    assert Pruned(map[m.id := 0.0], 0.0) == map[m.id := 0.0];
  }

  const LATER := LEDGER_TTL_SECONDS + 1.0

  lemma SecondPass(host: Host, m: Msg, x: Msg)
    requires host.inboxes == map[m.to := [m, x]] && host.ledger == map[m.id := 0.0]
    requires Direct(m) && Direct(x) && x.id != m.id
    ensures
      var next := AfterOutbound(host, [m.to], Plain(LATER));
      m.id !in next.ledger && Writes(Start(next), m, Plain(LATER))
  {
    var o := Start(host);
    ScanOfOne(host.inboxes, m.to, [m, x]);
    assert PublishOne(o, m, Plain(LATER)) == o;
    assert [m, x][1..] == [x];
    OneTurn(o, x, Plain(LATER));
    DirectIsPublished(o, x, LATER);
    DirectIsPublished(Start(AfterOutbound(host, [m.to], Plain(LATER))), m, LATER);
  }

  lemma SendOne(g: Bus, a: nat, m: Msg)
    requires Homed(g) && a in g.hosts && m.via == Messages.Local && g.home(m.from_) == a && Fresh(g, m)
    ensures Enabled(g, Step.Send(a, m, [(m.to, m.to)]))
    ensures
      var g' := Next(g, Step.Send(a, m, [(m.to, m.to)]));
      && Homed(g') && g'.home == g.home && g'.born.Keys == g.born.Keys + {m.id}
      && var host := g.hosts[a];
      && a in g'.hosts
      && g'.hosts[a] == host.(inboxes := host.inboxes[m.to := InboxOf(host.inboxes, m.to) + [m]])
  {
    var inboxes := g.hosts[a].inboxes;
    var next := inboxes[m.to := InboxOf(inboxes, m.to) + [m.(to := m.to)]];
    assert WriteCopies(next, m, [(m.to, m.to)][1..]) == next;
  }

  lemma InboxAfter(inboxes: Inboxes, to: string, msgs: seq<Msg>, m: Msg)
    requires inboxes == map[to := msgs] || (inboxes == map[] && msgs == [])
    ensures inboxes[to := InboxOf(inboxes, to) + [m]] == map[to := msgs + [m]]
  {
  }

  /** Sends, and passes in which nothing fails. */
  ghost predicate PlainRun(run: seq<Step>) {
    forall s :: s in run ==> s.Send? || (s.Outbound? && exists now :: s.cfg == Plain(now))
  }

  /** Send `m` and publish it. */
  lemma PublishedState(g0: Bus, a: nat, m: Msg) returns (run: seq<Step>, g: Bus)
    requires Initial(g0) && a in g0.hosts && g0.home(m.from_) == a && Direct(m)
    ensures Reaches(g0, run, g) && Sound(g) && PlainRun(run)
    ensures a in g.hosts && g.home == g0.home && g.born.Keys == {m.id}
    ensures g.hosts[a].inboxes == map[m.to := [m]] && g.hosts[a].ledger == map[m.id := 0.0]
    ensures Carries(g, Dm(m.from_), 0, m.id)
  {
    var s1, s2 := Step.Send(a, m, [(m.to, m.to)]), Step.Outbound(a, [m.to], Plain(0.0));
    assert Reaches(g0, [], g0);
    InitialSound(g0);
    SendOne(g0, a, m);
    var g1 := Next(g0, s1);
    InboxAfter(map[], m.to, [], m);
    assert [] + [m] == [m];
    ReachesThen(g0, [], g0, s1);
    ScanOfOne(g1.hosts[a].inboxes, m.to, [m]);
    FirstPass(g1.hosts[a], m);
    g, run := Next(g1, s2), [] + [s1] + [s2];
    ReachesThen(g0, [] + [s1], g1, s2);
    RunKeepsSound(g0, run, g);
  }

  /** Send `x` as well, and let a pass after the ledger's TTL publish that. */
  lemma ForgottenState(g: Bus, a: nat, m: Msg, x: Msg) returns (run: seq<Step>, g': Bus)
    requires Sound(g) && a in g.hosts && g.home(m.from_) == a == g.home(x.from_) && g.born.Keys == {m.id}
    requires g.hosts[a].inboxes == map[m.to := [m]] && g.hosts[a].ledger == map[m.id := 0.0]
    requires Carries(g, Dm(m.from_), 0, m.id)
    requires Direct(m) && Direct(x) && x.to == m.to && x.id != m.id
    ensures Reaches(g, run, g') && Sound(g') && PlainRun(run)
    ensures a in g'.hosts && g'.hosts[a].inboxes == map[m.to := [m, x]]
    ensures Carried(g', m.id) && Writes(Start(g'.hosts[a]), m, Plain(LATER))
  {
    var s3, s4 := Step.Send(a, x, [(x.to, x.to)]), Step.Outbound(a, [m.to], Plain(LATER));
    assert Reaches(g, [], g);
    SendOne(g, a, x);
    var g1 := Next(g, s3);
    InboxAfter(map[m.to := [m]], m.to, [m], x);
    assert [m] + [x] == [m, x];
    ReachesThen(g, [], g, s3);
    ScanOfOne(g1.hosts[a].inboxes, m.to, [m, x]);
    SecondPass(g1.hosts[a], m, x);
    g', run := Next(g1, s4), [] + [s3] + [s4];
    ReachesThen(g, [] + [s3], g1, s4);
    RunKeepsSound(g, [] + [s3], g1);
    StepKeepsSound(g1, s4);
    assert Carries(g1, Dm(m.from_), 0, m.id);
    OutboundCarries(g1, a, [m.to], Plain(LATER), Dm(m.from_), 0, m.id);
  }

  lemma ReachesFirst(g: Bus, s: Step, rest: seq<Step>, g2: Bus)
    requires Homed(g) && Enabled(g, s) && Homed(Next(g, s)) && Reaches(Next(g, s), rest, g2)
    ensures Reaches(g, [s] + rest, g2)
  {
    assert ([s] + rest)[1..] == rest;
  }

  lemma {:induction false} ReachesThrough(g: Bus, run: seq<Step>, g1: Bus, more: seq<Step>, g2: Bus)
    requires Homed(g) && Reaches(g, run, g1) && Homed(g1) && Reaches(g1, more, g2)
    ensures Reaches(g, run + more, g2)
    decreases |run|
  {
    if run == [] {
      assert run + more == more;
    } else {
      var s, rest := run[0], run[1..];
      assert run + more == [s] + (rest + more);
      ReachesThrough(Next(g, s), rest, g1, more, g2);
      ReachesFirst(g, s, rest + more, g2);
    }
  }

  /** One more pass publishes `m` again. */
  lemma OneMorePass(g: Bus, a: nat, m: Msg, msgs: seq<Msg>)
    requires Sound(g) && a in g.hosts && g.hosts[a].inboxes == map[m.to := msgs]
    requires msgs != [] && msgs[0] == m && forall x :: x in msgs ==> Mirrored(x)
    requires Carried(g, m.id) && Writes(Start(g.hosts[a]), m, Plain(LATER))
    ensures
      var s := Step.Outbound(a, [m.to], Plain(LATER));
      Enabled(g, s) && Sound(Next(g, s)) && !OneRecord(Next(g, s))
  {
    var o := Start(g.hosts[a]);
    ScanOfOne(g.hosts[a].inboxes, m.to, msgs);
    PublishesFirst(o, msgs, Plain(LATER));
    assert Republishes(g, a, [m.to], Plain(LATER));
    StepOneRecordIff(g, Step.Outbound(a, [m.to], Plain(LATER)));
  }

  lemma ThreePasses(g0: Bus, a: nat, m: Msg, x: Msg) returns (run: seq<Step>, g: Bus)
    requires Initial(g0) && a in g0.hosts && g0.home(m.from_) == a == g0.home(x.from_)
    requires Direct(m) && Direct(x) && x.to == m.to && x.id != m.id
    ensures PlainRun(run) && Reaches(g0, run, g) && Sound(g) && !OneRecord(g)
  {
    var run1, g1 := PublishedState(g0, a, m);
    var run2, g2 := ForgottenState(g1, a, m, x);
    OneMorePass(g2, a, m, [m, x]);
    ReachesThrough(g0, run1, g1, run2, g2);
    run, g := LastPass(g0, run1 + run2, g2, Step.Outbound(a, [m.to], Plain(LATER)));
  }

  lemma LastPass(g0: Bus, run: seq<Step>, g: Bus, s: Step) returns (all: seq<Step>, g': Bus)
    requires Homed(g0) && Reaches(g0, run, g) && Homed(g) && PlainRun(run)
    requires Enabled(g, s) && Sound(Next(g, s)) && s.Outbound? && exists now :: s.cfg == Plain(now)
    ensures PlainRun(all) && Reaches(g0, all, g') && g' == Next(g, s)
  {
    ReachesThen(g0, run, g, s);
    all, g' := run + [s], Next(g, s);
  }

  /** One record per id is not kept in every run: a message whose ledger entry is pruned while
      its copy waits in an inbox (a `must_read` copy never expires, the entry does after the
      TTL) is published twice, without a raise or a restart, for any two direct messages. */
  lemma ForgottenIsRepublished(g0: Bus, a: nat, m: Msg, x: Msg) returns (run: seq<Step>, g: Bus)
    requires Initial(g0) && a in g0.hosts && g0.home(m.from_) == a == g0.home(x.from_)
    requires Direct(m) && Direct(x) && x.to == m.to && x.id != m.id
    ensures PlainRun(run) && Reaches(g0, run, g) && Sound(g) && !OneRecord(g) && !OrderlyRun(g0, run, g)
  {
    run, g := ThreePasses(g0, a, m, x);
    InitialSound(g0);
    OneRecordIff(g0, run, g);
  }

  // ----- and one in which git fails -----

  /** A pass whose commits fail: the record is in the lane, and the pass raises. */
  function FailingCommits(now: real): OutCfg { OutCfg({}, false, _ => Stamp("", 0, AfterWrite), now) }

  lemma FailedPass(host: Host, m: Msg)
    requires host == Host(map[m.to := [m]], map[], map[], map[], map[]) && Direct(m)
    ensures
      var next := AfterOutbound(host, [m.to], FailingCommits(0.0));
      next.ledger == map[] && InClone(next.lanes, Dm(m.from_), 0, m.id) && Writes(Start(next), m, Plain(LATER))
  {
    ScanOfOne(host.inboxes, m.to, [m]);
    OneTurn(Start(host), m, FailingCommits(0.0));
    assert m.to[0] != '#';
    DirectIsPublished(Start(AfterOutbound(host, [m.to], FailingCommits(0.0))), m, LATER);
  }

  /** A commit that fails after its record was written leaves the id out of the ledger, so the
      next pass writes it again: a second record without any pruning, for any message. */
  lemma FailedCommitIsRepublished(g0: Bus, a: nat, m: Msg) returns (run: seq<Step>, g: Bus)
    requires Initial(g0) && a in g0.hosts && g0.home(m.from_) == a && Direct(m)
    ensures Reaches(g0, run, g) && Sound(g) && !OneRecord(g)
    ensures |run| == 3 && run[0].Send? && run[1].Outbound? && run[2].Outbound?
  {
    var s1, s2 := Step.Send(a, m, [(m.to, m.to)]), Step.Outbound(a, [m.to], FailingCommits(0.0));
    var s3 := Step.Outbound(a, [m.to], Plain(LATER));
    var g1, g2 := FailedState(g0, a, m);
    OneMorePass(g2, a, m, [m]);
    ReachesThen(g0, [] + [s1] + [s2], g2, s3);
    run, g := [] + [s1] + [s2] + [s3], Next(g2, s3);
  }

  lemma FailedState(g0: Bus, a: nat, m: Msg) returns (g1: Bus, g2: Bus)
    requires Initial(g0) && a in g0.hosts && g0.home(m.from_) == a && Direct(m)
    ensures
      Reaches(g0, [] + [Step.Send(a, m, [(m.to, m.to)])] + [Step.Outbound(a, [m.to], FailingCommits(0.0))], g2)
    ensures Sound(g2) && a in g2.hosts && g2.hosts[a].inboxes == map[m.to := [m]]
    ensures Carried(g2, m.id) && Writes(Start(g2.hosts[a]), m, Plain(LATER))
  {
    var s1, s2 := Step.Send(a, m, [(m.to, m.to)]), Step.Outbound(a, [m.to], FailingCommits(0.0));
    assert Reaches(g0, [], g0);
    InitialSound(g0);
    SendOne(g0, a, m);
    g1 := Next(g0, s1);
    InboxAfter(map[], m.to, [], m);
    assert [] + [m] == [m];
    ReachesThen(g0, [], g0, s1);
    ScanOfOne(g1.hosts[a].inboxes, m.to, [m]);
    FailedPass(g1.hosts[a], m);
    g2 := Next(g1, s2);
    ReachesThen(g0, [] + [s1], g1, s2);
    RunKeepsSound(g0, [] + [s1] + [s2], g2);
    assert Carries(g2, Dm(m.from_), 0, m.id);
  }
}
