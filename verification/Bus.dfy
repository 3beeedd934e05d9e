/** The whole bus: any number of hosts, each with its inboxes, its outbound ledger, its
    clone of the lanes and its read cursor. Git appears as "a clone's lane may grow to a
    longer prefix of the author's lane, or stay". Each author id belongs to one host. */
module Bus {
  import opened Messages
  import opened Order
  import opened Lanes
  import opened Replication
  import Transport

  datatype Host = Host(inboxes: Inboxes, ledger: Ledger, saved: Ledger, lanes: Lanes, cursor: Cursor)

  /** Who first wrote a message id, and on which host. */
  datatype Birth = Birth(from_: string, host: nat)

  datatype Bus = Bus(hosts: map<nat, Host>, born: map<string, Birth>, home: string -> nat)

  datatype Step =
    | Send(h: nat, m: Msg, copies: seq<(string, string)>)
    | NativeArrival(h: nat, inbox: string, m: Msg)
    | Local(h: nat, inboxes: Inboxes)
    | Outbound(h: nat, names: seq<string>, cfg: OutCfg)
    | Fetch(h: nat, incoming: Lanes)
    | Inbound(h: nat, files: seq<Lane>, subs: map<string, seq<string>>)
    | CutInbound(h: nat, files: seq<Lane>, subs: map<string, seq<string>>, c: nat)
    | Restart(h: nat, now: real)

  // ----- steps -----

  ghost predicate Placed(inboxes: Inboxes, m: Msg) {
    exists n :: n in inboxes && m in inboxes[n]
  }

  /** Some inbox still holds a copy the outbound scan would look at. */
  ghost predicate Exportable(inboxes: Inboxes, id: string) {
    exists m :: Placed(inboxes, m) && Mirrored(m) && m.id == id
  }

  /** `after` arose from `before` by reading, acking, expiring and inheriting: every file has
      an ancestor with the same id and sender, and only a tombstone loses the bridge tag. */
  ghost predicate Descends(before: Inboxes, after: Inboxes) {
    forall c :: Placed(after, c) ==>
      exists m :: Placed(before, m) && m.id == c.id && m.from_ == c.from_ &&
        (c.state == Expired || (c.via == m.via && m.state != Expired))
  }

  function WriteCopies(inboxes: Inboxes, m: Msg, copies: seq<(string, string)>): Inboxes
    decreases |copies|
  {
    if copies == [] then inboxes
    else
      var (inbox, to) := copies[0];
      WriteCopies(inboxes[inbox := InboxOf(inboxes, inbox) + [m.(to := to)]], m, copies[1..])
  }

  function Out(host: Host, names: seq<string>, cfg: OutCfg): Outbox {
    PublishAll(Outbox(host.lanes, host.ledger, 0, false), LocalMessages(host.inboxes, names), cfg)
  }

  function AuthorLane(g: Bus, lane: Lane): seq<Line>
    requires g.home(lane.author) in g.hosts
  {
    LinesOf(g.hosts[g.home(lane.author)].lanes, lane)
  }

  /** What an outbound pass leaves, whether it got through or raised: the ledger is pruned
      and saved only by a pass that published and got through. */
  function AfterOutbound(host: Host, names: seq<string>, cfg: OutCfg): Host {
    var o := Out(host, names, cfg);
    var saves := o.published > 0 && !o.raised;
    var ledger := if saves then Pruned(o.ledger, cfg.now) else o.ledger;
    host.(lanes := o.clone, ledger := ledger, saved := if saves then ledger else host.saved)
  }

  /** All that an inbound pass has to deliver, in order. */
  function SlotsAt(host: Host, files: seq<Lane>, subs: map<string, seq<string>>): seq<Slot> {
    Slots(Envs(Batch(host.lanes, host.cursor, files, READER_ID)), subs)
  }

  /** An inbound pass that raises or dies at place `c`: the drain has moved the cursor past the
      whole batch by then. */
  function AfterCut(host: Host, files: seq<Lane>, subs: map<string, seq<string>>, c: nat): Host
    requires c <= |SlotsAt(host, files, subs)|
  {
    host.(inboxes := DeliverSlots(host.inboxes, SlotsAt(host, files, subs)[..c]),
          cursor := Advanced(host.lanes, host.cursor, files))
  }

  ghost predicate Homed(g: Bus) { forall a :: g.home(a) in g.hosts }

  ghost predicate Fresh(g: Bus, m: Msg) {
    m.id != "" && m.id !in g.born && m.state == Pending
  }

  ghost predicate Enabled(g: Bus, s: Step)
    requires Homed(g)
  {
    s.h in g.hosts &&
    var host := g.hosts[s.h];
    match s
    case Send(h, m, copies) => Fresh(g, m) && m.via == Messages.Local && g.home(m.from_) == h
    case NativeArrival(h, inbox, m) => Fresh(g, m) && m.via == NativeBridge
    case Local(h, inboxes) => Descends(host.inboxes, inboxes)
    case Outbound(h, names, cfg) => Names(host.inboxes, names)
    case Fetch(h, incoming) =>
      forall lane: Lane :: LinesOf(Fetched(host.lanes, incoming), lane) <= AuthorLane(g, lane)
    case Inbound(h, files, subs) => Listing(host.lanes, files)
    case CutInbound(h, files, subs, c) => Listing(host.lanes, files) && c <= |SlotsAt(host, files, subs)|
    case Restart(h, now) => true
  }

  ghost function Next(g: Bus, s: Step): Bus
    requires Homed(g) && Enabled(g, s)
  {
    var host := g.hosts[s.h];
    match s
    case Send(h, m, copies) =>
      g.(hosts := g.hosts[h := host.(inboxes := WriteCopies(host.inboxes, m, copies))],
         born := g.born[m.id := Birth(m.from_, h)])
    case NativeArrival(h, inbox, m) =>
      g.(hosts := g.hosts[h := host.(inboxes := host.inboxes[inbox := InboxOf(host.inboxes, inbox) + [m]])],
         born := g.born[m.id := Birth(m.from_, h)])
    case Local(h, inboxes) => g.(hosts := g.hosts[h := host.(inboxes := inboxes)])
    case Outbound(h, names, cfg) => g.(hosts := g.hosts[h := AfterOutbound(host, names, cfg)])
    case Fetch(h, incoming) => g.(hosts := g.hosts[h := host.(lanes := Fetched(host.lanes, incoming))])
    case Inbound(h, files, subs) =>
      var batch := Envs(Batch(host.lanes, host.cursor, files, READER_ID));
      g.(hosts := g.hosts[h := host.(inboxes := DeliverAll(host.inboxes, batch, subs),
                                     cursor := Advanced(host.lanes, host.cursor, files))])
    case CutInbound(h, files, subs, c) => g.(hosts := g.hosts[h := AfterCut(host, files, subs, c)])
    case Restart(h, now) => g.(hosts := g.hosts[h := host.(ledger := Pruned(host.saved, now))])
  }

  // ----- the invariant -----

  /** Line `i` of the author's own lane carries message `id`. */
  ghost predicate Carries(g: Bus, lane: Lane, i: nat, id: string)
    requires Homed(g)
  {
    && i < |AuthorLane(g, lane)| && AuthorLane(g, lane)[i].Record?
    && AuthorLane(g, lane)[i].env.body.Some? && AuthorLane(g, lane)[i].env.body.value.id == id
  }

  /** A record as `publish` writes it: no bridge tag in the body, right author and number. */
  ghost predicate GoodRecord(g: Bus, lane: Lane, i: nat)
    requires Homed(g) && i < |AuthorLane(g, lane)|
  {
    var line := AuthorLane(g, lane)[i];
    && line.Record? && line.env.body.Some?
    && LaneOf(line.env) == lane && line.env.seqNo == NextSeq(AuthorLane(g, lane)[..i])
    && var m := line.env.body.value;
    && !Bridged(m) && m.id != "" && m.from_ == lane.author
    && m.id in g.born && g.born[m.id] == Birth(m.from_, g.home(m.from_))
    && Envelope(line.env, m) && BusBound(m, {}, true)
  }

  ghost predicate ReadPast(g: Bus, h: nat, id: string)
    requires Homed(g) && h in g.hosts
  {
    exists lane, i: nat :: Carries(g, lane, i, id) && i < Consumed(g.hosts[h].cursor, lane)
  }

  ghost predicate GoodFile(g: Bus, h: nat, m: Msg)
    requires Homed(g) && h in g.hosts
  {
    && m.id in g.born && g.born[m.id].from_ == m.from_
    && (Mirrored(m) ==> g.born[m.id].host == h && g.home(m.from_) == h)
    && (g.born[m.id].host == h || ReadPast(g, h, m.id))
  }

  ghost predicate Prefixes(g: Bus)
    requires Homed(g)
  {
    forall h, lane :: h in g.hosts ==>
      LinesOf(g.hosts[h].lanes, lane) <= AuthorLane(g, lane) &&
      Consumed(g.hosts[h].cursor, lane) <= |LinesOf(g.hosts[h].lanes, lane)|
  }

  ghost predicate GoodLanes(g: Bus)
    requires Homed(g)
  {
    forall lane, i: nat :: i < |AuthorLane(g, lane)| ==> GoodRecord(g, lane, i)
  }

  ghost predicate GoodFiles(g: Bus)
    requires Homed(g)
  {
    forall h, m :: h in g.hosts && Placed(g.hosts[h].inboxes, m) ==> GoodFile(g, h, m)
  }

  /** A published id is remembered, in memory and on disk, as long as a copy could be
      published again. */
  ghost predicate Remembered(g: Bus)
    requires Homed(g)
  {
    forall lane, i: nat, id :: Carries(g, lane, i, id) ==>
      var host := g.hosts[g.home(lane.author)];
      (id in host.ledger && id in host.saved) || !Exportable(host.inboxes, id)
  }

  ghost predicate Carried(g: Bus, id: string)
    requires Homed(g)
  {
    exists lane, i: nat :: Carries(g, lane, i, id)
  }

  /** Pruning drops no published id whose file is still there: the promise behind the
      ledger's TTL. */
  ghost predicate PruneSafe(g: Bus, h: nat, ledger: Ledger, now: real)
    requires Homed(g) && h in g.hosts
  {
    forall id :: id in ledger && id !in Pruned(ledger, now) && Carried(g, id) ==> !Exportable(g.hosts[h].inboxes, id)
  }

  /** What every run keeps, whatever raises, restarts or is forgotten. */
  ghost predicate Sound(g: Bus) {
    Homed(g) && Prefixes(g) && GoodLanes(g) && GoodFiles(g)
  }

  /** Each message id has at most one lane record on the whole bus. */
  ghost predicate OneRecord(g: Bus)
    requires Homed(g)
  {
    forall lane, i: nat, lane', i': nat, id ::
      Carries(g, lane, i, id) && Carries(g, lane', i', id) ==> lane == lane' && i == i'
  }

  ghost predicate Inv(g: Bus) { Sound(g) && OneRecord(g) }

  // ----- steps that leave the lanes alone -----

  ghost predicate SameLanes(g: Bus, g': Bus)
    requires Homed(g) && Homed(g')
  {
    && g'.home == g.home && g'.hosts.Keys == g.hosts.Keys
    && (forall lane: Lane :: AuthorLane(g', lane) == AuthorLane(g, lane))
    && (forall id :: id in g.born ==> id in g'.born && g'.born[id] == g.born[id])
  }

  lemma SameLanesKeeps(g: Bus, g': Bus)
    requires Homed(g) && Homed(g') && SameLanes(g, g')
    ensures forall lane, i: nat, id :: Carries(g', lane, i, id) <==> Carries(g, lane, i, id)
    ensures GoodLanes(g) ==> GoodLanes(g')
    ensures OneRecord(g) <==> OneRecord(g')
  {
    forall lane, i: nat, id ensures Carries(g', lane, i, id) <==> Carries(g, lane, i, id) {
      assert AuthorLane(g', lane) == AuthorLane(g, lane);
    }
    if GoodLanes(g) {
      forall lane, i: nat | i < |AuthorLane(g', lane)| ensures GoodRecord(g', lane, i) {
        assert GoodRecord(g, lane, i);
      }
    }
  }

  /** A carried id was born, so it is never the id of a new message. */
  lemma CarriedIsBorn(g: Bus, lane: Lane, i: nat, id: string)
    requires Homed(g) && GoodLanes(g) && Carries(g, lane, i, id)
    ensures id in g.born && g.born[id] == Birth(lane.author, g.home(lane.author))
  {
    assert GoodRecord(g, lane, i);
  }

  lemma RememberedKeeps(g: Bus, g': Bus)
    requires Homed(g) && Homed(g') && SameLanes(g, g') && GoodLanes(g) && Remembered(g)
    requires forall k, id :: k in g.hosts && id in g.born && Exportable(g'.hosts[k].inboxes, id) ==>
      && Exportable(g.hosts[k].inboxes, id)
      && (id in g.hosts[k].ledger && id in g.hosts[k].saved ==> id in g'.hosts[k].ledger && id in g'.hosts[k].saved)
    ensures Remembered(g')
  {
    SameLanesKeeps(g, g');
    forall lane, i: nat, id | Carries(g', lane, i, id) ensures
      var host := g'.hosts[g.home(lane.author)];
      (id in host.ledger && id in host.saved) || !Exportable(host.inboxes, id)
    {
      CarriedIsBorn(g, lane, i, id);
    }
  }

  lemma {:induction false} WriteCopiesPlaces(inboxes: Inboxes, m: Msg, copies: seq<(string, string)>)
    ensures forall c :: Placed(WriteCopies(inboxes, m, copies), c) ==>
      Placed(inboxes, c) || exists to :: c == m.(to := to)
    decreases |copies|
  {
    if copies != [] {
      var (inbox, to) := copies[0];
      var next := inboxes[inbox := InboxOf(inboxes, inbox) + [m.(to := to)]];
      WriteCopiesPlaces(next, m, copies[1..]);
      forall c | Placed(next, c) ensures Placed(inboxes, c) || c == m.(to := to) {
        var n :| n in next && c in next[n];
        if n == inbox && c != m.(to := to) {
          assert c in InboxOf(inboxes, inbox);
        }
      }
    }
  }

  /** A file that was there before keeps its provenance while cursors only advance. */
  lemma OldFileKeeps(g: Bus, g': Bus, h: nat, c: Msg)
    requires Homed(g) && Homed(g') && SameLanes(g, g')
    requires h in g.hosts && GoodFile(g, h, c)
    requires forall lane :: Consumed(g.hosts[h].cursor, lane) <= Consumed(g'.hosts[h].cursor, lane)
    ensures GoodFile(g', h, c)
  {
    SameLanesKeeps(g, g');
    if ReadPast(g, h, c.id) {
      var lane, i: nat :| Carries(g, lane, i, c.id) && i < Consumed(g.hosts[h].cursor, lane);
      assert Carries(g', lane, i, c.id);
    }
  }

  lemma FilesKeep(g: Bus, g': Bus)
    requires Homed(g) && Homed(g') && SameLanes(g, g')
    requires forall k, lane :: k in g.hosts ==> Consumed(g.hosts[k].cursor, lane) <= Consumed(g'.hosts[k].cursor, lane)
    requires forall k, c :: k in g.hosts && Placed(g'.hosts[k].inboxes, c) ==> GoodFile(g, k, c) || GoodFile(g', k, c)
    ensures GoodFiles(g')
  {
    forall k, c | k in g'.hosts && Placed(g'.hosts[k].inboxes, c) ensures GoodFile(g', k, c) {
      if GoodFile(g, k, c) {
        OldFileKeeps(g, g', k, c);
      }
    }
  }

  function With(g: Bus, h: nat, host: Host, born: map<string, Birth>): Bus {
    Bus(g.hosts[h := host], born, g.home)
  }

  /** One host changed, and no lane of its own authors did. */
  ghost predicate Quiet(g: Bus, h: nat, host: Host, born: map<string, Birth>)
    requires Homed(g) && h in g.hosts
  {
    && (forall id :: id in g.born ==> id in born && born[id] == g.born[id])
    && (forall lane: Lane :: g.home(lane.author) == h ==> LinesOf(host.lanes, lane) == LinesOf(g.hosts[h].lanes, lane))
    && (forall lane: Lane :: LinesOf(host.lanes, lane) <= AuthorLane(g, lane))
    && (forall lane :: Consumed(g.hosts[h].cursor, lane) <= Consumed(host.cursor, lane) <= |LinesOf(host.lanes, lane)|)
  }

  lemma QuietKeepsLanes(g: Bus, h: nat, host: Host, born: map<string, Birth>)
    requires Sound(g) && h in g.hosts && Quiet(g, h, host, born)
    ensures Homed(With(g, h, host, born)) && SameLanes(g, With(g, h, host, born))
    ensures Prefixes(With(g, h, host, born)) && GoodLanes(With(g, h, host, born))
    ensures OneRecord(g) <==> OneRecord(With(g, h, host, born))
  {
    var g' := With(g, h, host, born);
    assert forall lane: Lane :: AuthorLane(g', lane) == AuthorLane(g, lane);
    SameLanesKeeps(g, g');
    assert Prefixes(g') by {
      forall k, lane | k in g'.hosts ensures
        LinesOf(g'.hosts[k].lanes, lane) <= AuthorLane(g', lane) &&
        Consumed(g'.hosts[k].cursor, lane) <= |LinesOf(g'.hosts[k].lanes, lane)|
      {
        assert k != h ==> g'.hosts[k] == g.hosts[k];
      }
    }
  }

  lemma QuietKeeps(g: Bus, h: nat, host: Host, born: map<string, Birth>)
    requires Sound(g) && h in g.hosts && Quiet(g, h, host, born)
    requires forall c :: Placed(host.inboxes, c) && !GoodFile(g, h, c) ==>
      Homed(With(g, h, host, born)) && GoodFile(With(g, h, host, born), h, c)
    ensures Sound(With(g, h, host, born))
    ensures OneRecord(g) <==> OneRecord(With(g, h, host, born))
  {
    QuietKeepsLanes(g, h, host, born);
    FilesKeep(g, With(g, h, host, born));
  }

  /** One host changed without exporting or forgetting anything new. */
  ghost predicate KeepsMemory(g: Bus, h: nat, host: Host)
    requires h in g.hosts
  {
    && (forall id :: id in g.born && Exportable(host.inboxes, id) ==> Exportable(g.hosts[h].inboxes, id))
    && (forall id :: Exportable(host.inboxes, id) && id in g.hosts[h].ledger && id in g.hosts[h].saved ==>
          id in host.ledger && id in host.saved)
  }

  lemma QuietRemembers(g: Bus, h: nat, host: Host, born: map<string, Birth>)
    requires Sound(g) && Remembered(g) && h in g.hosts && Quiet(g, h, host, born) && KeepsMemory(g, h, host)
    ensures Homed(With(g, h, host, born)) && Remembered(With(g, h, host, born))
  {
    QuietKeepsLanes(g, h, host, born);
    RememberedKeeps(g, With(g, h, host, born));
  }

  // ----- each quiet step -----

  /** A step that adds only copies of one new local or native message. */
  lemma ArrivalKeeps(g: Bus, h: nat, m: Msg, inboxes: Inboxes)
    requires Sound(g) && h in g.hosts && Fresh(g, m)
    requires m.via == NativeBridge || (m.via == Messages.Local && g.home(m.from_) == h)
    requires forall c :: Placed(inboxes, c) ==> Placed(g.hosts[h].inboxes, c) || exists to :: c == m.(to := to)
    ensures
      var g' := With(g, h, g.hosts[h].(inboxes := inboxes), g.born[m.id := Birth(m.from_, h)]);
      Sound(g') && (OneRecord(g) <==> OneRecord(g')) && (Remembered(g) ==> Remembered(g'))
  {
    var host, born := g.hosts[h].(inboxes := inboxes), g.born[m.id := Birth(m.from_, h)];
    QuietKeeps(g, h, host, born);
    if Remembered(g) {
      forall id | id in g.born && Exportable(inboxes, id) ensures Exportable(g.hosts[h].inboxes, id) {
        var c :| Placed(inboxes, c) && Mirrored(c) && c.id == id;
        assert Placed(g.hosts[h].inboxes, c);
      }
      QuietRemembers(g, h, host, born);
    }
  }

  lemma LocalKeeps(g: Bus, h: nat, inboxes: Inboxes)
    requires Sound(g) && h in g.hosts && Descends(g.hosts[h].inboxes, inboxes)
    ensures
      var g' := With(g, h, g.hosts[h].(inboxes := inboxes), g.born);
      Sound(g') && (OneRecord(g) <==> OneRecord(g')) && (Remembered(g) ==> Remembered(g'))
  {
    var host := g.hosts[h].(inboxes := inboxes);
    forall c | Placed(inboxes, c) ensures GoodFile(g, h, c) {
      var m :| Placed(g.hosts[h].inboxes, m) && m.id == c.id && m.from_ == c.from_ &&
        (c.state == Expired || (c.via == m.via && m.state != Expired));
      assert GoodFile(g, h, m);
    }
    QuietKeeps(g, h, host, g.born);
    if Remembered(g) {
      forall id | Exportable(inboxes, id) ensures Exportable(g.hosts[h].inboxes, id) {
        var c :| Placed(inboxes, c) && Mirrored(c) && c.id == id;
      }
      QuietRemembers(g, h, host, g.born);
    }
  }

  lemma FetchKeeps(g: Bus, h: nat, incoming: Lanes)
    requires Sound(g) && Enabled(g, Step.Fetch(h, incoming))
    ensures
      var g' := With(g, h, g.hosts[h].(lanes := Fetched(g.hosts[h].lanes, incoming)), g.born);
      Sound(g') && (OneRecord(g) <==> OneRecord(g')) && (Remembered(g) ==> Remembered(g'))
  {
    var host := g.hosts[h].(lanes := Fetched(g.hosts[h].lanes, incoming));
    forall lane: Lane ensures LinesOf(host.lanes, lane) == LinesOf(g.hosts[h].lanes, lane) + LinesOf(incoming, lane) {
    }
    QuietKeeps(g, h, host, g.born);
    if Remembered(g) {
      QuietRemembers(g, h, host, g.born);
    }
  }

  lemma RestartKeeps(g: Bus, h: nat, now: real)
    requires Sound(g) && Enabled(g, Restart(h, now))
    ensures
      var g' := With(g, h, g.hosts[h].(ledger := Pruned(g.hosts[h].saved, now)), g.born);
      Sound(g') && (OneRecord(g) <==> OneRecord(g')) &&
      (Remembered(g) && PruneSafe(g, h, g.hosts[h].saved, now) ==> Remembered(g'))
  {
    var host := g.hosts[h].(ledger := Pruned(g.hosts[h].saved, now));
    QuietKeeps(g, h, host, g.born);
    if Remembered(g) && PruneSafe(g, h, g.hosts[h].saved, now) {
      RestartRemembers(g, h, now);
    }
  }

  lemma RestartRemembers(g: Bus, h: nat, now: real)
    requires Sound(g) && Enabled(g, Restart(h, now)) && Remembered(g) && PruneSafe(g, h, g.hosts[h].saved, now)
    ensures
      var g' := With(g, h, g.hosts[h].(ledger := Pruned(g.hosts[h].saved, now)), g.born);
      Homed(g') && Remembered(g')
  {
    var g' := With(g, h, g.hosts[h].(ledger := Pruned(g.hosts[h].saved, now)), g.born);
    QuietKeepsLanes(g, h, g'.hosts[h], g.born);
    SameLanesKeeps(g, g');
    forall lane, i: nat, id | Carries(g', lane, i, id) ensures
      var host := g'.hosts[g.home(lane.author)];
      (id in host.ledger && id in host.saved) || !Exportable(host.inboxes, id)
    {
      assert Carries(g, lane, i, id);
    }
  }

  // ----- inbound -----

  ghost predicate InBatch(batch: seq<Env>, c: Msg) {
    exists env :: env in batch && env.body.Some? && c == Delivered(env.body.value)
  }

  lemma {:induction false} DeliverSlotsPlaces(inboxes: Inboxes, slots: seq<Slot>)
    ensures forall c :: Placed(DeliverSlots(inboxes, slots), c) ==>
      Placed(inboxes, c) || exists x :: x in slots && c == Delivered(x.1)
    decreases |slots|
  {
    if slots != [] {
      var next := DeliverOne(inboxes, slots[0].0, slots[0].1);
      DeliverSlotsPlaces(next, slots[1..]);
      assert slots[0] in slots && forall x :: x in slots[1..] ==> x in slots;
      forall c | Placed(next, c) ensures Placed(inboxes, c) || c == Delivered(slots[0].1) {
        var n :| n in next && c in next[n];
        if c != Delivered(slots[0].1) {
          assert c in InboxOf(inboxes, n);
        }
      }
    }
  }

  lemma CutPlaces(host: Host, files: seq<Lane>, subs: map<string, seq<string>>, k: nat)
    requires k <= |SlotsAt(host, files, subs)|
    ensures forall c :: Placed(AfterCut(host, files, subs, k).inboxes, c) ==>
      Placed(host.inboxes, c) || InBatch(Envs(Batch(host.lanes, host.cursor, files, READER_ID)), c)
  {
    var batch, slots := Envs(Batch(host.lanes, host.cursor, files, READER_ID)), SlotsAt(host, files, subs);
    SlotsElements(batch, subs);
    DeliverSlotsPlaces(host.inboxes, slots[..k]);
    forall x | x in slots[..k] ensures exists env :: env in batch && env.body == Some(x.1) {
      assert x in slots;
    }
  }

  /** What a drain hands over was carried by its author's lane and is now consumed. */
  lemma DrainedRecord(g: Bus, h: nat, files: seq<Lane>, env: Env)
    requires Sound(g) && h in g.hosts && Listing(g.hosts[h].lanes, files)
    requires env in Envs(Batch(g.hosts[h].lanes, g.hosts[h].cursor, files, READER_ID)) && env.body.Some?
    ensures exists lane, i: nat ::
      && Carries(g, lane, i, env.body.value.id) && AuthorLane(g, lane)[i].env == env && GoodRecord(g, lane, i)
      && Consumed(g.hosts[h].cursor, lane) <= i < Consumed(Advanced(g.hosts[h].lanes, g.hosts[h].cursor, files), lane)
  {
    var host := g.hosts[h];
    var items := Batch(host.lanes, host.cursor, files, READER_ID);
    BatchElements(host.lanes, host.cursor, files, READER_ID);
    var k :| 0 <= k < |items| && items[k].env == env;
    var it := items[k];
    assert it in items;
    AdvancedAt(host.lanes, host.cursor, files, it.lane);
    assert LinesOf(host.lanes, it.lane) <= AuthorLane(g, it.lane);
    assert GoodRecord(g, it.lane, it.index);
    assert Carries(g, it.lane, it.index, env.body.value.id);
  }

  /** A pass that is not cut goes through all its slots. */
  lemma InboundIsWholeCut(g: Bus, h: nat, files: seq<Lane>, subs: map<string, seq<string>>)
    requires Homed(g) && Enabled(g, Step.Inbound(h, files, subs))
    ensures
      var s := CutInbound(h, files, subs, |SlotsAt(g.hosts[h], files, subs)|);
      Enabled(g, s) && Next(g, s) == Next(g, Step.Inbound(h, files, subs))
  {
    var slots := SlotsAt(g.hosts[h], files, subs);
    assert slots[..|slots|] == slots;
    DeliverSlotsAll(g.hosts[h].inboxes, Envs(Batch(g.hosts[h].lanes, g.hosts[h].cursor, files, READER_ID)), subs);
  }

  lemma CutQuiet(g: Bus, h: nat, files: seq<Lane>, subs: map<string, seq<string>>, k: nat)
    requires Sound(g) && Enabled(g, CutInbound(h, files, subs, k))
    ensures Quiet(g, h, AfterCut(g.hosts[h], files, subs, k), g.born)
  {
    var host := g.hosts[h];
    forall lane ensures Consumed(Advanced(host.lanes, host.cursor, files), lane) ==
      if lane in files then |LinesOf(host.lanes, lane)| else Consumed(host.cursor, lane)
    {
      assert LinesOf(host.lanes, lane) <= AuthorLane(g, lane);
      AdvancedAt(host.lanes, host.cursor, files, lane);
    }
  }

  lemma CutFile(g: Bus, h: nat, files: seq<Lane>, subs: map<string, seq<string>>, k: nat, c: Msg)
    requires Sound(g) && Enabled(g, CutInbound(h, files, subs, k)) && !Placed(g.hosts[h].inboxes, c)
    requires Placed(AfterCut(g.hosts[h], files, subs, k).inboxes, c)
    ensures c.via == Git
    ensures
      var g' := With(g, h, AfterCut(g.hosts[h], files, subs, k), g.born);
      Homed(g') && GoodFile(g', h, c)
  {
    var batch := Envs(Batch(g.hosts[h].lanes, g.hosts[h].cursor, files, READER_ID));
    CutPlaces(g.hosts[h], files, subs, k);
    var env :| env in batch && env.body.Some? && c == Delivered(env.body.value);
    DrainedRecord(g, h, files, env);
    var lane, i: nat :| Carries(g, lane, i, env.body.value.id) && AuthorLane(g, lane)[i].env == env &&
      GoodRecord(g, lane, i) &&
      i < Consumed(Advanced(g.hosts[h].lanes, g.hosts[h].cursor, files), lane);
    var g' := With(g, h, AfterCut(g.hosts[h], files, subs, k), g.born);
    CutQuiet(g, h, files, subs, k);
    QuietKeepsLanes(g, h, AfterCut(g.hosts[h], files, subs, k), g.born);
    SameLanesKeeps(g, g');
    assert Carries(g', lane, i, c.id);
  }

  lemma CutKeeps(g: Bus, h: nat, files: seq<Lane>, subs: map<string, seq<string>>, k: nat)
    requires Sound(g) && Enabled(g, CutInbound(h, files, subs, k))
    ensures
      var g' := With(g, h, AfterCut(g.hosts[h], files, subs, k), g.born);
      Sound(g') && (OneRecord(g) <==> OneRecord(g')) && (Remembered(g) ==> Remembered(g'))
  {
    var host' := AfterCut(g.hosts[h], files, subs, k);
    CutQuiet(g, h, files, subs, k);
    forall c | Placed(host'.inboxes, c) && !Placed(g.hosts[h].inboxes, c)
      ensures c.via == Git && Homed(With(g, h, host', g.born)) && GoodFile(With(g, h, host', g.born), h, c)
    {
      CutFile(g, h, files, subs, k, c);
    }
    QuietKeeps(g, h, host', g.born);
    if Remembered(g) {
      forall id | Exportable(host'.inboxes, id) ensures Exportable(g.hosts[h].inboxes, id) {
        var c :| Placed(host'.inboxes, c) && Mirrored(c) && c.id == id;
        assert Placed(g.hosts[h].inboxes, c);
      }
      QuietRemembers(g, h, host', g.born);
    }
  }

  // ----- outbound -----

  /** The bus while host `h` is inside its outbound pass. */
  function During(g: Bus, h: nat, o: Outbox): Bus
    requires h in g.hosts
  {
    g.(hosts := g.hosts[h := g.hosts[h].(lanes := o.clone, ledger := o.ledger)])
  }

  /** `g'` is `g` after host `h` appended `env` to a lane of one of its own authors. */
  ghost predicate AppendedBy(g: Bus, g': Bus, h: nat, env: Env)
    requires Homed(g) && Homed(g')
  {
    && g'.home == g.home && g'.born == g.born && g'.hosts.Keys == g.hosts.Keys && h in g.hosts
    && env.body.Some? && g.home(LaneOf(env).author) == h
    && (forall k :: k in g.hosts && k != h ==> g'.hosts[k] == g.hosts[k])
    && g'.hosts[h].inboxes == g.hosts[h].inboxes && g'.hosts[h].cursor == g.hosts[h].cursor
    && g'.hosts[h].lanes == Transport.Appended(g.hosts[h].lanes, env)
  }

  lemma AppendedAuthorLane(g: Bus, g': Bus, h: nat, env: Env, l: Lane)
    requires Homed(g) && Homed(g') && AppendedBy(g, g', h, env)
    ensures AuthorLane(g', l) == if l == LaneOf(env) then AuthorLane(g, l) + [Record(env)] else AuthorLane(g, l)
  {
  }

  lemma AppendedCarries(g: Bus, g': Bus, h: nat, env: Env)
    requires Homed(g) && Homed(g') && AppendedBy(g, g', h, env)
    ensures forall l, i: nat, id :: Carries(g', l, i, id) <==>
      Carries(g, l, i, id) || (l == LaneOf(env) && i == |AuthorLane(g, LaneOf(env))| && id == env.body.value.id)
  {
    forall l, i: nat, id ensures Carries(g', l, i, id) <==>
      Carries(g, l, i, id) || (l == LaneOf(env) && i == |AuthorLane(g, LaneOf(env))| && id == env.body.value.id)
    {
      AppendedAuthorLane(g, g', h, env, l);
    }
  }

  lemma AppendedPrefixes(g: Bus, g': Bus, h: nat, env: Env)
    requires Homed(g) && Homed(g') && AppendedBy(g, g', h, env) && Prefixes(g)
    ensures Prefixes(g')
  {
    forall k, lane | k in g'.hosts ensures
      LinesOf(g'.hosts[k].lanes, lane) <= AuthorLane(g', lane) &&
      Consumed(g'.hosts[k].cursor, lane) <= |LinesOf(g'.hosts[k].lanes, lane)|
    {
      AppendedAuthorLane(g, g', h, env, lane);
      assert LinesOf(g.hosts[k].lanes, lane) <= AuthorLane(g, lane);
    }
  }

  lemma AppendedLanesGood(g: Bus, g': Bus, h: nat, env: Env)
    requires Homed(g) && Homed(g') && AppendedBy(g, g', h, env) && GoodLanes(g)
    requires var m := env.body.value;
      && !Bridged(m) && m.id != "" && m.from_ == LaneOf(env).author
      && m.id in g.born && g.born[m.id] == Birth(m.from_, h)
      && Envelope(env, m) && BusBound(m, {}, true)
    requires env.seqNo == NextSeq(AuthorLane(g, LaneOf(env)))
    ensures GoodLanes(g')
  {
    var lane, n := LaneOf(env), |AuthorLane(g, LaneOf(env))|;
    forall l, i: nat | i < |AuthorLane(g', l)| ensures GoodRecord(g', l, i) {
      AppendedAuthorLane(g, g', h, env, l);
      if l == lane {
        assert AuthorLane(g', l)[..i] == AuthorLane(g, l)[..i];
        assert i == n ==> AuthorLane(g, l)[..i] == AuthorLane(g, l);
      }
      if l != lane || i < n {
        assert GoodRecord(g, l, i);
      }
    }
  }

  lemma AppendedFilesGood(g: Bus, g': Bus, h: nat, env: Env)
    requires Homed(g) && Homed(g') && AppendedBy(g, g', h, env) && GoodFiles(g)
    ensures GoodFiles(g')
  {
    AppendedCarries(g, g', h, env);
    forall k, c | k in g'.hosts && Placed(g'.hosts[k].inboxes, c) ensures GoodFile(g', k, c) {
      assert GoodFile(g, k, c);
      if ReadPast(g, k, c.id) {
        var l, i: nat :| Carries(g, l, i, c.id) && i < Consumed(g.hosts[k].cursor, l);
        assert Carries(g', l, i, c.id);
      }
    }
  }

  /** Publishing one more message at its home host. */
  lemma AppendKeeps(g: Bus, h: nat, o: Outbox, m: Msg, env: Env, o1: Outbox)
    requires h in g.hosts && Sound(During(g, h, o))
    requires Placed(g.hosts[h].inboxes, m) && Mirrored(m) && m.id != ""
    requires Envelope(env, m) && BusBound(m, {}, true) && env.seqNo == NextSeq(LinesOf(o.clone, LaneOf(env)))
    requires o1.clone == Transport.Appended(o.clone, env)
    ensures Sound(During(g, h, o1))
  {
    var g0, g1 := During(g, h, o), During(g, h, o1);
    assert GoodFile(g0, h, m);
    AppendedPrefixes(g0, g1, h, env);
    AppendedLanesGood(g0, g1, h, env);
    AppendedFilesGood(g0, g1, h, env);
  }

  lemma {:induction false} PassKeeps(g: Bus, h: nat, o: Outbox, msgs: seq<Msg>, cfg: OutCfg)
    requires h in g.hosts && Sound(During(g, h, o))
    requires forall m :: m in msgs ==> Placed(g.hosts[h].inboxes, m) && Mirrored(m)
    ensures Sound(During(g, h, PublishAll(o, msgs, cfg)))
    decreases |msgs|
  {
    if msgs != [] {
      var m := msgs[0];
      var o1 := PublishOne(o, m, cfg);
      var route := RouteOf(m, cfg.live, cfg.mirrorAll);
      if o1.clone != o.clone {
        RecordFits(o.clone, m, cfg.live, cfg.mirrorAll, cfg.stamps(m.id));
        AppendKeeps(g, h, o, m, RecordFor(o.clone, m, route, cfg.stamps(m.id)), o1);
      } else {
        SameClone(During(g, h, o), h, During(g, h, o1));
      }
      PassKeeps(g, h, o1, msgs[1..], cfg);
    }
  }

  /** Ledgers have no part in soundness. */
  lemma SameClone(g0: Bus, h: nat, g1: Bus)
    requires Sound(g0) && h in g0.hosts
    requires g1.hosts.Keys == g0.hosts.Keys && g1.home == g0.home && g1.born == g0.born
    requires forall k :: k in g0.hosts ==>
      g1.hosts[k].(ledger := g0.hosts[k].ledger, saved := g0.hosts[k].saved) == g0.hosts[k]
    ensures Sound(g1) && SameLanes(g0, g1)
  {
    assert SameLanes(g0, g1);
    SameLanesKeeps(g0, g1);
    SamePrefixes(g0, g1);
    FilesKeep(g0, g1);
  }

  lemma SamePrefixes(g: Bus, g': Bus)
    requires Homed(g) && Homed(g') && SameLanes(g, g') && Prefixes(g)
    requires forall k :: k in g.hosts ==>
      g'.hosts[k].lanes == g.hosts[k].lanes && g'.hosts[k].cursor == g.hosts[k].cursor
    ensures Prefixes(g')
  {
    forall k, lane | k in g'.hosts ensures
      LinesOf(g'.hosts[k].lanes, lane) <= AuthorLane(g', lane) &&
      Consumed(g'.hosts[k].cursor, lane) <= |LinesOf(g'.hosts[k].lanes, lane)|
    {
      assert LinesOf(g.hosts[k].lanes, lane) <= AuthorLane(g, lane);
    }
  }

  /** Everything the scan of a pass yields lies in an inbox. */
  lemma ScannedIsPlaced(host: Host, names: seq<string>)
    requires Names(host.inboxes, names)
    ensures forall m :: m in LocalMessages(host.inboxes, names) ==> Placed(host.inboxes, m) && Mirrored(m)
  {
    var msgs := LocalMessages(host.inboxes, names);
    LocalMessagesElements(host.inboxes, names);
    forall m | m in msgs ensures Placed(host.inboxes, m) && Mirrored(m) {
      var k :| 0 <= k < |names| && m in InboxOf(host.inboxes, names[k]);
      assert names[k] in names;
    }
  }

  lemma OutboundKeeps(g: Bus, h: nat, names: seq<string>, cfg: OutCfg)
    requires Sound(g) && Enabled(g, Step.Outbound(h, names, cfg))
    ensures Sound(With(g, h, AfterOutbound(g.hosts[h], names, cfg), g.born))
  {
    var host := g.hosts[h];
    var o0, o := Outbox(host.lanes, host.ledger, 0, false), Out(host, names, cfg);
    ScannedIsPlaced(host, names);
    assert During(g, h, o0) == g by {
      assert host == host.(lanes := o0.clone, ledger := o0.ledger);
      assert g.hosts[h := host] == g.hosts;
    }
    PassKeeps(g, h, o0, LocalMessages(host.inboxes, names), cfg);
    SameClone(During(g, h, o), h, With(g, h, AfterOutbound(host, names, cfg), g.born));
  }

  // ----- every run -----

  /** Every step but an outbound pass leaves what the bus carries as it is. */
  lemma QuietStep(g: Bus, s: Step)
    requires Sound(g) && Enabled(g, s) && !s.Outbound?
    ensures Sound(Next(g, s)) && (OneRecord(g) <==> OneRecord(Next(g, s)))
    ensures Remembered(g) && (s.Restart? ==> PruneSafe(g, s.h, g.hosts[s.h].saved, s.now)) ==> Remembered(Next(g, s))
  {
    var host := g.hosts[s.h];
    match s
    case Send(h, m, copies) =>
      WriteCopiesPlaces(host.inboxes, m, copies);
      ArrivalKeeps(g, h, m, WriteCopies(host.inboxes, m, copies));
    case NativeArrival(h, inbox, m) => NativeKeeps(g, h, inbox, m);
    case Local(h, inboxes) => LocalKeeps(g, h, inboxes);
    case Fetch(h, incoming) => FetchKeeps(g, h, incoming);
    case Inbound(h, files, subs) =>
      InboundIsWholeCut(g, h, files, subs);
      CutKeeps(g, h, files, subs, |SlotsAt(host, files, subs)|);
    case CutInbound(h, files, subs, c) => CutKeeps(g, h, files, subs, c);
    case Restart(h, now) => RestartKeeps(g, h, now);
  }

  /** Every step keeps the bus sound. */
  lemma StepKeepsSound(g: Bus, s: Step)
    requires Sound(g) && Enabled(g, s)
    ensures Sound(Next(g, s))
  {
    if s.Outbound? {
      OutboundKeeps(g, s.h, s.names, s.cfg);
    } else {
      QuietStep(g, s);
    }
  }

  lemma NativeKeeps(g: Bus, h: nat, inbox: string, m: Msg)
    requires Sound(g) && Enabled(g, NativeArrival(h, inbox, m))
    ensures
      var g' := Next(g, NativeArrival(h, inbox, m));
      Sound(g') && (OneRecord(g) <==> OneRecord(g')) && (Remembered(g) ==> Remembered(g'))
  {
    var inboxes := g.hosts[h].inboxes;
    WriteCopiesPlaces(inboxes, m, [(inbox, m.to)]);
    assert WriteCopies(inboxes, m, [(inbox, m.to)]) == inboxes[inbox := InboxOf(inboxes, inbox) + [m]];
    ArrivalKeeps(g, h, m, WriteCopies(inboxes, m, [(inbox, m.to)]));
  }

  ghost predicate Reaches(g: Bus, run: seq<Step>, g': Bus)
    requires Homed(g)
    decreases |run|
  {
    if run == [] then g == g'
    else Enabled(g, run[0]) && Homed(Next(g, run[0])) && Reaches(Next(g, run[0]), run[1..], g')
  }

  /** A bus nobody has written to yet. */
  ghost predicate Initial(g: Bus) {
    && Homed(g) && g.born == map[]
    && forall h :: h in g.hosts ==> g.hosts[h] == Host(map[], map[], map[], map[], map[])
  }

  lemma {:induction false} RunKeepsSound(g: Bus, run: seq<Step>, g': Bus)
    requires Sound(g) && Reaches(g, run, g')
    ensures Sound(g')
    decreases |run|
  {
    if run != [] {
      StepKeepsSound(g, run[0]);
      RunKeepsSound(Next(g, run[0]), run[1..], g');
    }
  }

  lemma InitialSound(g: Bus)
    requires Initial(g)
    ensures Inv(g) && Remembered(g)
  {
    assert forall lane: Lane :: AuthorLane(g, lane) == [];
    assert Prefixes(g) by {
      forall h, lane | h in g.hosts ensures
        LinesOf(g.hosts[h].lanes, lane) <= AuthorLane(g, lane) &&
        Consumed(g.hosts[h].cursor, lane) <= |LinesOf(g.hosts[h].lanes, lane)|
      {
        assert g.hosts[h] == Host(map[], map[], map[], map[], map[]);
        assert LinesOf(g.hosts[h].lanes, lane) == [] && Consumed(g.hosts[h].cursor, lane) == 0;
      }
    }
    assert GoodFiles(g) by {
      forall h, m | h in g.hosts ensures !Placed(g.hosts[h].inboxes, m) {
        assert g.hosts[h].inboxes == map[];
      }
    }
  }
}
