/** End-to-end delivery of one message over the bus, and where it stops being
    exactly once (git_bridge.py, git_transport.py, dispatch_fs.py). */
module Delivery {
  import opened Ids
  import opened Messages
  import opened Order
  import opened Lanes
  import opened Replication
  import opened Bus
  import opened LoopFreedom
  import Transport

  function WithId(id: string): Msg -> bool { (m: Msg) => m.id == id }

  /** The copies of a message in one inbox. */
  function Copies(inboxes: Inboxes, inbox: string, id: string): seq<Msg> {
    Filter(WithId(id), InboxOf(inboxes, inbox))
  }

  // ----- delivery of a batch, one message id at a time -----

  lemma {:induction false} DeliverToOthers(inboxes: Inboxes, rcpts: seq<string>, m: Msg, n: string, id: string)
    requires m.id != id
    ensures Copies(DeliverTo(inboxes, rcpts, m), n, id) == Copies(inboxes, n, id)
    decreases |rcpts|
  {
    if rcpts != [] {
      FilterAppend(WithId(id), InboxOf(inboxes, rcpts[0]), [Delivered(m)]);
      DeliverToOthers(DeliverOne(inboxes, rcpts[0], m), rcpts[1..], m, n, id);
    }
  }

  /** None of these records carries message `id`. */
  ghost predicate Lacks(batch: seq<Env>, id: string) {
    forall env :: env in batch && env.body.Some? ==> env.body.value.id != id
  }

  lemma {:induction false} DeliverAllOthers(inboxes: Inboxes, batch: seq<Env>, subs: map<string, seq<string>>,
                                            n: string, id: string)
    requires Lacks(batch, id)
    ensures Copies(DeliverAll(inboxes, batch, subs), n, id) == Copies(inboxes, n, id)
    decreases |batch|
  {
    if batch != [] {
      assert batch[0] in batch;
      if batch[0].body.Some? {
        DeliverToOthers(inboxes, Recipients(batch[0], subs), batch[0].body.value, n, id);
      }
      DeliverAllOthers(DeliverEnv(inboxes, batch[0], subs), batch[1..], subs, n, id);
    }
  }

  lemma {:induction false} DeliverAllAppend(inboxes: Inboxes, a: seq<Env>, b: seq<Env>, subs: map<string, seq<string>>)
    ensures DeliverAll(inboxes, a + b, subs) == DeliverAll(DeliverAll(inboxes, a, subs), b, subs)
    decreases |a|
  {
    if a == [] {
      assert a + b == b;
    } else {
      assert (a + b)[1..] == a[1..] + b;
      DeliverAllAppend(DeliverEnv(inboxes, a[0], subs), a[1..], b, subs);
    }
  }

  lemma NoCopies(inboxes: Inboxes, n: string, id: string)
    ensures Copies(inboxes, n, id) == [] <==> forall m :: m in InboxOf(inboxes, n) ==> m.id != id
    ensures id != "" ==> (Copies(inboxes, n, id) == [] <==> id !in IdsIn(InboxOf(inboxes, n)))
  {
    FilterElements(WithId(id), InboxOf(inboxes, n));
    if Copies(inboxes, n, id) != [] {
      assert Copies(inboxes, n, id)[0] in Copies(inboxes, n, id);
    }
  }

  /** A direct message as it travels: addressed to another agent with a valid id. */
  predicate DirectRecord(env: Env, m: Msg) {
    && env.body == Some(m) && env.chan == None && env.to == Some(m.to) && env.from_ == m.from_
    && ValidId(m.to) && m.to != m.from_ && m.id != ""
  }

  /** Delivering to a list of names, whatever it repeats: one pending copy in each inbox on it
      that has a valid name and holds no copy yet, and nothing in any other. */
  lemma {:induction false} DeliverToEach(inboxes: Inboxes, rcpts: seq<string>, m: Msg, n: string)
    requires m.id != ""
    ensures Copies(DeliverTo(inboxes, rcpts, m), n, m.id) ==
      Copies(inboxes, n, m.id) +
      if n in rcpts && ValidId(n) && Copies(inboxes, n, m.id) == [] then [Delivered(m)] else []
    decreases |rcpts|
  {
    if rcpts != [] {
      NoCopies(inboxes, rcpts[0], m.id);
      FilterAppend(WithId(m.id), InboxOf(inboxes, rcpts[0]), [Delivered(m)]);
      DeliverToEach(DeliverOne(inboxes, rcpts[0], m), rcpts[1..], m, n);
      assert n in rcpts <==> n == rcpts[0] || n in rcpts[1..];
    }
  }

  // ----- the unread record of a message at a host -----

  /** Host `h` has line `i` of a lane in its clone, a foreign record of `m`, and has not read it
      yet. */
  ghost predicate UnreadAt(g: Bus, h: nat, lane: Lane, i: nat, m: Msg)
    requires Homed(g) && h in g.hosts
  {
    && Consumed(g.hosts[h].cursor, lane) <= i < |LinesOf(g.hosts[h].lanes, lane)|
    && LinesOf(g.hosts[h].lanes, lane)[i].Record?
    && LinesOf(g.hosts[h].lanes, lane)[i].env.body == Some(m)
    && LinesOf(g.hosts[h].lanes, lane)[i].env.from_ != READER_ID
  }

  ghost function EnvAt(g: Bus, h: nat, lane: Lane, i: nat, m: Msg): Env
    requires Homed(g) && h in g.hosts && UnreadAt(g, h, lane, i, m)
  {
    LinesOf(g.hosts[h].lanes, lane)[i].env
  }

  /** The same, for a direct message. */
  ghost predicate Unread(g: Bus, h: nat, i: nat, m: Msg)
    requires Homed(g) && h in g.hosts
  {
    UnreadAt(g, h, Dm(m.from_), i, m) && DirectRecord(EnvAt(g, h, Dm(m.from_), i, m), m)
  }

  /** In a batch read from the bus only the item at the record's place carries its id. */
  lemma OneItemPerId(g: Bus, h: nat, files: seq<Lane>, lane: Lane, i: nat, m: Msg, it: Item)
    requires Inv(g) && h in g.hosts && Listing(g.hosts[h].lanes, files) && UnreadAt(g, h, lane, i, m)
    requires it in Batch(g.hosts[h].lanes, g.hosts[h].cursor, files, READER_ID)
    requires it.env.body.Some? && it.env.body.value.id == m.id
    ensures it == Item(lane, i, EnvAt(g, h, lane, i, m))
  {
    var host := g.hosts[h];
    BatchElements(host.lanes, host.cursor, files, READER_ID);
    assert LinesOf(host.lanes, it.lane) <= AuthorLane(g, it.lane);
    assert LinesOf(host.lanes, lane) <= AuthorLane(g, lane);
    assert Carries(g, it.lane, it.index, m.id);
    assert Carries(g, lane, i, m.id);
  }

  lemma UnreadIsDrained(g: Bus, h: nat, files: seq<Lane>, lane: Lane, i: nat, m: Msg) returns (k: nat)
    requires Inv(g) && h in g.hosts && Listing(g.hosts[h].lanes, files) && UnreadAt(g, h, lane, i, m)
    ensures
      var items := Batch(g.hosts[h].lanes, g.hosts[h].cursor, files, READER_ID);
      k < |items| && items[k] == Item(lane, i, EnvAt(g, h, lane, i, m))
  {
    var host := g.hosts[h];
    var items := Batch(host.lanes, host.cursor, files, READER_ID);
    var mine := Item(lane, i, EnvAt(g, h, lane, i, m));
    BatchElements(host.lanes, host.cursor, files, READER_ID);
    assert lane in host.lanes;
    assert mine in items;
    k :| 0 <= k < |items| && items[k] == mine;
  }

  lemma SplitLacking(batch: seq<Env>, k: nat, id: string)
    requires k < |batch|
    requires forall j :: 0 <= j < |batch| && j != k && batch[j].body.Some? ==> batch[j].body.value.id != id
    ensures batch == batch[..k] + [batch[k]] + batch[k + 1..]
    ensures Lacks(batch[..k], id) && Lacks(batch[k + 1..], id)
  {
  }

  lemma BatchAround(g: Bus, h: nat, files: seq<Lane>, lane: Lane, i: nat, m: Msg) returns (a: seq<Env>, b: seq<Env>)
    requires Inv(g) && h in g.hosts && Listing(g.hosts[h].lanes, files) && UnreadAt(g, h, lane, i, m)
    ensures
      var host := g.hosts[h];
      Envs(Batch(host.lanes, host.cursor, files, READER_ID)) == a + [EnvAt(g, h, lane, i, m)] + b
    ensures Lacks(a, m.id) && Lacks(b, m.id)
  {
    var items := Batch(g.hosts[h].lanes, g.hosts[h].cursor, files, READER_ID);
    var k := UnreadIsDrained(g, h, files, lane, i, m);
    var batch := Envs(items);
    forall j | 0 <= j < |batch| && j != k && batch[j].body.Some? ensures batch[j].body.value.id != m.id {
      OthersLack(g, h, files, lane, i, m, items, j, k);
    }
    SplitLacking(batch, k, m.id);
    a, b := batch[..k], batch[k + 1..];
  }

  lemma OthersLack(g: Bus, h: nat, files: seq<Lane>, lane: Lane, i: nat, m: Msg, items: seq<Item>, j: nat, k: nat)
    requires Inv(g) && h in g.hosts && Listing(g.hosts[h].lanes, files) && UnreadAt(g, h, lane, i, m)
    requires items == Batch(g.hosts[h].lanes, g.hosts[h].cursor, files, READER_ID)
    requires j < |items| && k < |items| && j != k && items[j].env.body.Some?
    requires items[k] == Item(lane, i, EnvAt(g, h, lane, i, m))
    ensures items[j].env.body.value.id != m.id
  {
    BatchElements(g.hosts[h].lanes, g.hosts[h].cursor, files, READER_ID);
    if items[j].env.body.value.id == m.id {
      assert items[j] in items;
      OneItemPerId(g, h, files, lane, i, m, items[j]);
    }
  }

  /** What an inbound pass does with an unread record: one fresh pending copy in each inbox the
      record is for, if that holds none, and nothing elsewhere. */
  lemma InboundReaches(g: Bus, h: nat, files: seq<Lane>, subs: map<string, seq<string>>, lane: Lane, i: nat, m: Msg,
                       n: string)
    requires Inv(g) && h in g.hosts && Listing(g.hosts[h].lanes, files) && UnreadAt(g, h, lane, i, m) && m.id != ""
    ensures Copies(Next(g, Step.Inbound(h, files, subs)).hosts[h].inboxes, n, m.id) ==
      Copies(g.hosts[h].inboxes, n, m.id) +
      if n in Recipients(EnvAt(g, h, lane, i, m), subs) && ValidId(n) && Copies(g.hosts[h].inboxes, n, m.id) == []
      then [Delivered(m)] else []
  {
    var host := g.hosts[h];
    var env := EnvAt(g, h, lane, i, m);
    var a, b := BatchAround(g, h, files, lane, i, m);
    var x := DeliverAll(host.inboxes, a, subs);
    var y := DeliverEnv(x, env, subs);
    DeliverAllAppend(host.inboxes, a + [env], b, subs);
    DeliverAllAppend(host.inboxes, a, [env], subs);
    assert DeliverAll(x, [env], subs) == y by {
      assert [env][1..] == [];
    }
    DeliverAllOthers(host.inboxes, a, subs, n, m.id);
    DeliverAllOthers(y, b, subs, n, m.id);
    DeliverToEach(x, Recipients(env, subs), m, n);
  }

  /** Exactly what an inbound pass does with an unread direct message: one fresh pending
      copy in the inbox its `to` names, if and only if that inbox has none; nothing else. */
  lemma InboundDelivers(g: Bus, h: nat, files: seq<Lane>, subs: map<string, seq<string>>, i: nat, m: Msg, n: string)
    requires Inv(g) && h in g.hosts && Listing(g.hosts[h].lanes, files) && Unread(g, h, i, m)
    ensures Copies(Next(g, Step.Inbound(h, files, subs)).hosts[h].inboxes, n, m.id) ==
      Copies(g.hosts[h].inboxes, n, m.id) +
      if n == m.to && Copies(g.hosts[h].inboxes, n, m.id) == [] then [Delivered(m)] else []
  {
    InboundReaches(g, h, files, subs, Dm(m.from_), i, m, n);
    assert Recipients(EnvAt(g, h, Dm(m.from_), i, m), subs) == [m.to];
  }

  lemma DrainLacksConsumed(g: Bus, h: nat, files: seq<Lane>, id: string)
    requires Inv(g) && h in g.hosts && Listing(g.hosts[h].lanes, files) && ReadPast(g, h, id)
    ensures Lacks(Envs(Batch(g.hosts[h].lanes, g.hosts[h].cursor, files, READER_ID)), id)
  {
    var host := g.hosts[h];
    var batch := Envs(Batch(host.lanes, host.cursor, files, READER_ID));
    var lane0, i0: nat :| Carries(g, lane0, i0, id) && i0 < Consumed(host.cursor, lane0);
    forall env | env in batch && env.body.Some? ensures env.body.value.id != id {
      DrainedRecord(g, h, files, env);
      var lane, i: nat :| Carries(g, lane, i, env.body.value.id) && Consumed(host.cursor, lane) <= i;
    }
  }

  // ----- a pass, whole or cut -----

  /** An inbound pass of host `h`, whether it gets through or not. */
  predicate Reads(s: Step, h: nat) { (s.Inbound? || s.CutInbound?) && s.h == h }

  lemma {:induction false} SlotsOthers(inboxes: Inboxes, slots: seq<Slot>, n: string, id: string)
    requires forall x :: x in slots ==> x.1.id != id
    ensures Copies(DeliverSlots(inboxes, slots), n, id) == Copies(inboxes, n, id)
    decreases |slots|
  {
    if slots != [] {
      assert slots[0] in slots && forall x :: x in slots[1..] ==> x in slots;
      FilterAppend(WithId(id), InboxOf(inboxes, slots[0].0), [Delivered(slots[0].1)]);
      SlotsOthers(DeliverOne(inboxes, slots[0].0, slots[0].1), slots[1..], n, id);
    }
  }

  /** No slot carries an id the batch lacks. */
  lemma SlotsLack(batch: seq<Env>, subs: map<string, seq<string>>, id: string)
    requires Lacks(batch, id)
    ensures forall x :: x in Slots(batch, subs) ==> x.1.id != id
  {
    SlotsElements(batch, subs);
  }

  lemma CutLacks(g: Bus, h: nat, files: seq<Lane>, subs: map<string, seq<string>>, c: nat, n: string, id: string)
    requires Homed(g) && Enabled(g, CutInbound(h, files, subs, c))
    requires Lacks(Envs(Batch(g.hosts[h].lanes, g.hosts[h].cursor, files, READER_ID)), id)
    ensures Copies(AfterCut(g.hosts[h], files, subs, c).inboxes, n, id) == Copies(g.hosts[h].inboxes, n, id)
  {
    var batch := Envs(Batch(g.hosts[h].lanes, g.hosts[h].cursor, files, READER_ID));
    SlotsLack(batch, subs, id);
    forall x | x in Slots(batch, subs)[..c] ensures x.1.id != id {
      assert x in Slots(batch, subs);
    }
    SlotsOthers(g.hosts[h].inboxes, Slots(batch, subs)[..c], n, id);
  }

  // ----- at most once over a run -----

  /** A delivery adds a copy of an id only to an inbox that has none, and then one. */
  predicate AddsOnce(inboxes: Inboxes, after: Inboxes, n: string, id: string) {
    || Copies(after, n, id) == Copies(inboxes, n, id)
    || (Copies(inboxes, n, id) == [] && |Copies(after, n, id)| == 1)
  }

  lemma {:induction false} SlotsAddOnce(inboxes: Inboxes, slots: seq<Slot>, n: string, id: string)
    requires id != ""
    ensures AddsOnce(inboxes, DeliverSlots(inboxes, slots), n, id)
    decreases |slots|
  {
    if slots != [] {
      var (rcpt, m) := slots[0];
      NoCopies(inboxes, rcpt, id);
      FilterAppend(WithId(id), InboxOf(inboxes, rcpt), [Delivered(m)]);
      SlotsAddOnce(DeliverOne(inboxes, rcpt, m), slots[1..], n, id);
    }
  }

  /** A pass that adds a copy has read a record of its id. */
  lemma AddedIsConsumed(g: Bus, h: nat, files: seq<Lane>, subs: map<string, seq<string>>, c: nat, n: string, id: string)
    requires Sound(g) && Enabled(g, CutInbound(h, files, subs, c))
    requires Copies(AfterCut(g.hosts[h], files, subs, c).inboxes, n, id) != Copies(g.hosts[h].inboxes, n, id)
    ensures id != "" && Sound(Next(g, CutInbound(h, files, subs, c)))
    ensures ReadPast(Next(g, CutInbound(h, files, subs, c)), h, id)
  {
    var host, s := g.hosts[h], CutInbound(h, files, subs, c);
    var batch := Envs(Batch(host.lanes, host.cursor, files, READER_ID));
    if Lacks(batch, id) {
      CutLacks(g, h, files, subs, c, n, id);
    }
    var env :| env in batch && env.body.Some? && env.body.value.id == id;
    DrainedRecord(g, h, files, env);
    var lane, i: nat :| Carries(g, lane, i, id) && GoodRecord(g, lane, i) && AuthorLane(g, lane)[i].env == env &&
      i < Consumed(Advanced(host.lanes, host.cursor, files), lane);
    StepKeepsSound(g, s);
    StillCarries(g, s, lane, i, id);
  }

  /** What is behind a host's cursor stays there. */
  lemma StepKeepsConsumed(g: Bus, s: Step, h: nat, id: string)
    requires Sound(g) && Enabled(g, s) && h in g.hosts && ReadPast(g, h, id)
    ensures Sound(Next(g, s)) && ReadPast(Next(g, s), h, id)
  {
    var lane, i: nat :| Carries(g, lane, i, id) && i < Consumed(g.hosts[h].cursor, lane);
    CursorAdvances(g, s, h, lane);
    StillCarries(g, s, lane, i, id);
    StepKeepsSound(g, s);
  }

  /** A step changes one host, whose lanes it only extends. */
  lemma StepInPlace(g: Bus, s: Step, lane: Lane)
    requires Homed(g) && Enabled(g, s)
    ensures Next(g, s).home == g.home && Next(g, s).hosts.Keys == g.hosts.Keys
    ensures forall k :: k in g.hosts && k != s.h ==> Next(g, s).hosts[k] == g.hosts[k]
    ensures LinesOf(g.hosts[s.h].lanes, lane) <= LinesOf(Next(g, s).hosts[s.h].lanes, lane)
  {
    var lanes := g.hosts[s.h].lanes;
    if s.Outbound? {
      PublishAllGrows(Start(g.hosts[s.h]), LocalMessages(g.hosts[s.h].inboxes, s.names), s.cfg);
    } else if s.Fetch? {
      assert LinesOf(Fetched(lanes, s.incoming), lane) == LinesOf(lanes, lane) + LinesOf(s.incoming, lane);
    }
  }

  /** A step only extends the authors' lanes. */
  lemma StepGrows(g: Bus, s: Step, lane: Lane)
    requires Homed(g) && Enabled(g, s)
    ensures Homed(Next(g, s)) && Next(g, s).home == g.home && Next(g, s).hosts.Keys == g.hosts.Keys
    ensures AuthorLane(g, lane) <= AuthorLane(Next(g, s), lane)
  {
    StepInPlace(g, s, lane);
  }

  lemma StillCarries(g: Bus, s: Step, lane: Lane, i: nat, id: string)
    requires Homed(g) && Enabled(g, s) && Carries(g, lane, i, id)
    ensures Homed(Next(g, s)) && Carries(Next(g, s), lane, i, id)
  {
    StepGrows(g, s, lane);
  }

  lemma CursorAdvances(g: Bus, s: Step, h: nat, lane: Lane)
    requires Sound(g) && Enabled(g, s) && h in g.hosts
    ensures h in Next(g, s).hosts && Consumed(g.hosts[h].cursor, lane) <= Consumed(Next(g, s).hosts[h].cursor, lane)
    ensures !Reads(s, h) ==> Next(g, s).hosts[h].cursor == g.hosts[h].cursor
  {
    if s.h != h {
      StepInPlace(g, s, lane);
    } else if Reads(s, h) {
      AdvancedAt(g.hosts[h].lanes, g.hosts[h].cursor, s.files, lane);
    } else {
      CursorUntouched(g, s);
    }
  }

  lemma CursorUntouched(g: Bus, s: Step)
    requires Homed(g) && Enabled(g, s) && !s.Inbound? && !s.CutInbound?
    ensures s.h in Next(g, s).hosts && Next(g, s).hosts[s.h].cursor == g.hosts[s.h].cursor
  {
  }

  /** How many copies of an id the inbound passes of host `h` add to one inbox over a run. */
  ghost function Added(g: Bus, run: seq<Step>, g': Bus, h: nat, n: string, id: string): int
    requires Sound(g) && Reaches(g, run, g') && h in g.hosts
    decreases |run|
  {
    if run == [] then 0
    else
      StepKeepsSound(g, run[0]);
      var next := Next(g, run[0]);
      (if Reads(run[0], h)
       then |Copies(next.hosts[h].inboxes, n, id)| - |Copies(g.hosts[h].inboxes, n, id)| else 0)
      + Added(next, run[1..], g', h, n, id)
  }

  /** Over any run that keeps one record per id, a host's passes add at most one copy of a
      message to an inbox, and none once it has read past the record, even after the recipient
      acked every copy. */
  lemma {:induction false} AtMostOnce(g: Bus, run: seq<Step>, g': Bus, h: nat, n: string, id: string)
    requires Inv(g) && Reaches(g, run, g') && OrderlyRun(g, run, g') && h in g.hosts
    ensures 0 <= Added(g, run, g', h, n, id) <= if ReadPast(g, h, id) then 0 else 1
    decreases |run|
  {
    if run != [] {
      var s, next := run[0], Next(g, run[0]);
      StepOneRecordIff(g, s);
      AtMostOnce(next, run[1..], g', h, n, id);
      if ReadPast(g, h, id) {
        StepKeepsConsumed(g, s, h, id);
      }
      if Reads(s, h) {
        OnePass(g, s, h, n, id);
      }
    }
  }

  lemma OnePass(g: Bus, s: Step, h: nat, n: string, id: string)
    requires Inv(g) && Enabled(g, s) && Reads(s, h)
    ensures
      var next := Next(g, s);
      var before, after := Copies(g.hosts[h].inboxes, n, id), Copies(next.hosts[h].inboxes, n, id);
      && Sound(next)
      && (before == after || (!ReadPast(g, h, id) && ReadPast(next, h, id) && |after| == |before| + 1))
  {
    if s.Inbound? {
      InboundIsWholeCut(g, h, s.files, s.subs);
      OneCutPass(g, h, s.files, s.subs, |SlotsAt(g.hosts[h], s.files, s.subs)|, n, id);
    } else {
      OneCutPass(g, h, s.files, s.subs, s.c, n, id);
    }
  }

  lemma OneCutPass(g: Bus, h: nat, files: seq<Lane>, subs: map<string, seq<string>>, c: nat, n: string, id: string)
    requires Inv(g) && Enabled(g, CutInbound(h, files, subs, c))
    ensures
      var next := Next(g, CutInbound(h, files, subs, c));
      var before, after := Copies(g.hosts[h].inboxes, n, id), Copies(next.hosts[h].inboxes, n, id);
      && Sound(next)
      && (before == after || (!ReadPast(g, h, id) && ReadPast(next, h, id) && |after| == |before| + 1))
  {
    StepKeepsSound(g, CutInbound(h, files, subs, c));
    var host := g.hosts[h];
    if Copies(AfterCut(host, files, subs, c).inboxes, n, id) != Copies(host.inboxes, n, id) {
      AddedIsConsumed(g, h, files, subs, c, n, id);
      SlotsAddOnce(host.inboxes, SlotsAt(host, files, subs)[..c], n, id);
      if ReadPast(g, h, id) {
        DrainLacksConsumed(g, h, files, id);
        CutLacks(g, h, files, subs, c, n, id);
      }
    }
  }

  // ----- what a cut pass loses -----

  /** The place of the unread message among all the pass has to deliver: behind the slots of
      the records in front of it. */
  ghost predicate PlaceOf(g: Bus, h: nat, files: seq<Lane>, subs: map<string, seq<string>>, i: nat, m: Msg, p: nat)
    requires Homed(g) && h in g.hosts && Unread(g, h, i, m)
  {
    var batch := Envs(Batch(g.hosts[h].lanes, g.hosts[h].cursor, files, READER_ID));
    exists k: nat :: k < |batch| && batch[k] == LinesOf(g.hosts[h].lanes, Dm(m.from_))[i].env &&
      p == |Slots(batch[..k], subs)|
  }

  lemma PlaceInSlots(g: Bus, h: nat, files: seq<Lane>, subs: map<string, seq<string>>, i: nat, m: Msg)
      returns (p: nat, a: seq<Slot>, b: seq<Slot>)
    requires Inv(g) && h in g.hosts && Listing(g.hosts[h].lanes, files) && Unread(g, h, i, m)
    ensures PlaceOf(g, h, files, subs, i, m, p) && |a| == p
    ensures SlotsAt(g.hosts[h], files, subs) == a + ([(m.to, m)] + b)
    ensures (forall x :: x in a ==> x.1.id != m.id) && (forall x :: x in b ==> x.1.id != m.id)
  {
    var host := g.hosts[h];
    var items := Batch(host.lanes, host.cursor, files, READER_ID);
    var batch := Envs(items);
    var k := UnreadIsDrained(g, h, files, Dm(m.from_), i, m);
    forall j | 0 <= j < |batch| && j != k && batch[j].body.Some? ensures batch[j].body.value.id != m.id {
      OthersLack(g, h, files, Dm(m.from_), i, m, items, j, k);
    }
    SplitLacking(batch, k, m.id);
    a, b := Slots(batch[..k], subs), Slots(batch[k + 1..], subs);
    p := |a|;
    SlotsLack(batch[..k], subs, m.id);
    SlotsLack(batch[k + 1..], subs, m.id);
    SlotsAppend(batch[..k] + [batch[k]], batch[k + 1..], subs);
    SlotsAppend(batch[..k], [batch[k]], subs);
    DirectHasOneSlot(batch[k], m, subs);
    Regroup(a, [(m.to, m)], b);
  }

  lemma DirectHasOneSlot(env: Env, m: Msg, subs: map<string, seq<string>>)
    requires DirectRecord(env, m)
    ensures Slots([env], subs) == [(m.to, m)]
  {
    assert Recipients(env, subs) == [m.to];
    assert [env][1..] == [] && SlotsFor([m.to], m) == [(m.to, m)];
    assert Slots([env], subs) == SlotsOf(env, subs) + Slots([env][1..], subs);
  }

  /** A pass that stops at place `c` delivers an unread direct message exactly when its place is
      in front of that, and then just as a whole pass does. */
  lemma CutDeliversIff(g: Bus, h: nat, files: seq<Lane>, subs: map<string, seq<string>>, c: nat, i: nat, m: Msg)
      returns (p: nat)
    requires Inv(g) && Enabled(g, CutInbound(h, files, subs, c)) && Unread(g, h, i, m)
    ensures PlaceOf(g, h, files, subs, i, m, p)
    ensures forall n ::
      Copies(Next(g, CutInbound(h, files, subs, c)).hosts[h].inboxes, n, m.id) ==
      Copies(g.hosts[h].inboxes, n, m.id) +
      if p < c && n == m.to && Copies(g.hosts[h].inboxes, n, m.id) == [] then [Delivered(m)] else []
  {
    var inboxes, slots := g.hosts[h].inboxes, SlotsAt(g.hosts[h], files, subs);
    var a, b;
    p, a, b := PlaceInSlots(g, h, files, subs, i, m);
    assert AfterCut(g.hosts[h], files, subs, c).inboxes == DeliverSlots(inboxes, slots[..c]);
    forall n ensures Copies(DeliverSlots(inboxes, slots[..c]), n, m.id) ==
      Copies(inboxes, n, m.id) + if p < c && n == m.to && Copies(inboxes, n, m.id) == [] then [Delivered(m)] else []
    {
      CutAround(inboxes, slots, c, m, a, b, n);
    }
  }

  lemma CutAround(inboxes: Inboxes, slots: seq<Slot>, c: nat, m: Msg, a: seq<Slot>, b: seq<Slot>, n: string)
    requires slots == a + ([(m.to, m)] + b) && c <= |slots| && ValidId(m.to) && m.id != ""
    requires (forall x :: x in a ==> x.1.id != m.id) && (forall x :: x in b ==> x.1.id != m.id)
    ensures Copies(DeliverSlots(inboxes, slots[..c]), n, m.id) ==
      Copies(inboxes, n, m.id) + if |a| < c && n == m.to && Copies(inboxes, n, m.id) == [] then [Delivered(m)] else []
  {
    if c <= |a| {
      assert slots[..c] == a[..c];
      SlotsOthers(inboxes, a[..c], n, m.id);
    } else {
      assert slots[..c] == a + ([(m.to, m)] + b[..c - |a| - 1]);
      OneSlotDelivers(m, inboxes, a, b[..c - |a| - 1], n);
    }
  }

  lemma OneSlotDelivers(m: Msg, inboxes: Inboxes, a: seq<Slot>, b: seq<Slot>, n: string)
    requires ValidId(m.to) && m.id != ""
    requires (forall x :: x in a ==> x.1.id != m.id) && (forall x :: x in b ==> x.1.id != m.id)
    ensures Copies(DeliverSlots(inboxes, a + ([(m.to, m)] + b)), n, m.id) ==
      Copies(inboxes, n, m.id) + if n == m.to && Copies(inboxes, n, m.id) == [] then [Delivered(m)] else []
  {
    var x := DeliverSlots(inboxes, a);
    var y := DeliverOne(x, m.to, m);
    DeliverSlotsAppend(inboxes, a, [(m.to, m)] + b);
    assert ([(m.to, m)] + b)[1..] == b;
    SlotsOthers(inboxes, a, n, m.id);
    SlotsOthers(y, b, n, m.id);
    NoCopies(x, m.to, m.id);
    FilterAppend(WithId(m.id), InboxOf(x, m.to), [Delivered(m)]);
  }

  /** And what it does not deliver is lost for good: the cursor is past the record, so no later
      pass of any run that republishes nothing adds a copy. */
  lemma CutLosesForGood(g: Bus, h: nat, files: seq<Lane>, subs: map<string, seq<string>>, c: nat, i: nat, m: Msg,
                        p: nat, run: seq<Step>, g': Bus, n: string)
    requires Inv(g) && Enabled(g, CutInbound(h, files, subs, c)) && Unread(g, h, i, m)
    requires PlaceOf(g, h, files, subs, i, m, p) && c <= p
    requires Sound(Next(g, CutInbound(h, files, subs, c)))
    requires
      var next := Next(g, CutInbound(h, files, subs, c));
      Reaches(next, run, g') && OrderlyRun(next, run, g')
    ensures
      var next := Next(g, CutInbound(h, files, subs, c));
      && Copies(next.hosts[h].inboxes, n, m.id) == Copies(g.hosts[h].inboxes, n, m.id)
      && Added(next, run, g', h, n, m.id) == 0
  {
    var s := CutInbound(h, files, subs, c);
    StepOneRecordIff(g, s);
    CutReadsPast(g, h, files, subs, c, i, m);
    AtMostOnce(Next(g, s), run, g', h, n, m.id);
    var q := CutDeliversIff(g, h, files, subs, c, i, m);
    SamePlace(g, h, files, subs, i, m, p, q);
  }

  lemma CutReadsPast(g: Bus, h: nat, files: seq<Lane>, subs: map<string, seq<string>>, c: nat, i: nat, m: Msg)
    requires Inv(g) && Enabled(g, CutInbound(h, files, subs, c)) && Unread(g, h, i, m)
    ensures Homed(Next(g, CutInbound(h, files, subs, c))) && ReadPast(Next(g, CutInbound(h, files, subs, c)), h, m.id)
  {
    var s, lane := CutInbound(h, files, subs, c), Dm(m.from_);
    AdvancedAt(g.hosts[h].lanes, g.hosts[h].cursor, files, lane);
    assert lane in g.hosts[h].lanes;
    assert LinesOf(g.hosts[h].lanes, lane) <= AuthorLane(g, lane);
    assert Carries(g, lane, i, m.id);
    StillCarries(g, s, lane, i, m.id);
  }

  /** The record of a message stands once in the batch. */
  lemma SamePlace(g: Bus, h: nat, files: seq<Lane>, subs: map<string, seq<string>>, i: nat, m: Msg, p: nat, q: nat)
    requires Inv(g) && h in g.hosts && Listing(g.hosts[h].lanes, files) && Unread(g, h, i, m)
    requires PlaceOf(g, h, files, subs, i, m, p) && PlaceOf(g, h, files, subs, i, m, q)
    ensures p == q
  {
    var items := Batch(g.hosts[h].lanes, g.hosts[h].cursor, files, READER_ID);
    var batch, env := Envs(items), LinesOf(g.hosts[h].lanes, Dm(m.from_))[i].env;
    var k := UnreadIsDrained(g, h, files, Dm(m.from_), i, m);
    forall j | 0 <= j < |batch| && batch[j] == env ensures j == k {
      if j != k {
        OthersLack(g, h, files, Dm(m.from_), i, m, items, j, k);
      }
    }
  }

  // ----- the sender's tick -----

  /** A direct message the sender's next pass will publish. */
  ghost predicate NewDirect(g: Bus, a: nat, m: Msg, cfg: OutCfg)
    requires a in g.hosts
  {
    && Placed(g.hosts[a].inboxes, m) && Mirrored(m) && m.id != "" && m.id !in g.hosts[a].ledger
    && (forall c :: Placed(g.hosts[a].inboxes, c) && c.id == m.id ==> c == m)
    && ValidId(m.from_) && ValidId(m.to) && m.to != m.from_ && m.to != "all"
    && (m.to !in cfg.live || cfg.mirrorAll)
  }

  lemma TurnPublishes(o: Outbox, cfg: OutCfg, m: Msg) returns (i: nat)
    requires !o.raised && m.id != "" && m.id !in o.ledger && !PublishOne(o, m, cfg).raised
    requires RouteOf(m, cfg.live, cfg.mirrorAll) == ToAgent(m.to) && ValidId(m.to) && m.to != m.from_
    ensures
      var lines := LinesOf(PublishOne(o, m, cfg).clone, Dm(m.from_));
      && |LinesOf(o.clone, Dm(m.from_))| == i < |lines| && lines[i].Record? && DirectRecord(lines[i].env, m)
  {
    i := |LinesOf(o.clone, Dm(m.from_))|;
  }

  lemma {:induction false} PassPublishes(o: Outbox, msgs: seq<Msg>, cfg: OutCfg, m: Msg) returns (i: nat)
    requires m in msgs && m.id != "" && m.id !in o.ledger
    requires forall c :: c in msgs && c.id == m.id ==> c == m
    requires !PublishAll(o, msgs, cfg).raised && RouteOf(m, cfg.live, cfg.mirrorAll) == ToAgent(m.to)
    requires ValidId(m.to) && m.to != m.from_
    ensures
      var lines := LinesOf(PublishAll(o, msgs, cfg).clone, Dm(m.from_));
      |LinesOf(o.clone, Dm(m.from_))| <= i < |lines| && lines[i].Record? && DirectRecord(lines[i].env, m)
    decreases |msgs|
  {
    var o1 := PublishOne(o, msgs[0], cfg);
    PublishAllGrows(o1, msgs[1..], cfg);
    if o1.raised {
      RaisedStays(o1, msgs[1..], cfg);
    }
    assert LinesOf(o1.clone, Dm(m.from_)) <= LinesOf(PublishAll(o, msgs, cfg).clone, Dm(m.from_));
    if msgs[0].id == m.id {
      assert msgs[0] in msgs;
      i := TurnPublishes(o, cfg, m);
      assert LinesOf(o1.clone, Dm(m.from_))[i] == LinesOf(PublishAll(o, msgs, cfg).clone, Dm(m.from_))[i];
    } else {
      assert m in msgs[1..];
      assert LinesOf(o.clone, Dm(m.from_)) <= LinesOf(o1.clone, Dm(m.from_));
      i := PassPublishes(o1, msgs[1..], cfg, m);
    }
  }

  lemma SenderPublishes(g: Bus, a: nat, names: seq<string>, cfg: OutCfg, m: Msg) returns (i: nat)
    requires Inv(g) && a in g.hosts && NewDirect(g, a, m, cfg)
    requires Enabled(g, Step.Outbound(a, names, cfg)) && !Out(g.hosts[a], names, cfg).raised
    ensures
      var lines := LinesOf(Next(g, Step.Outbound(a, names, cfg)).hosts[a].lanes, Dm(m.from_));
      |LinesOf(g.hosts[a].lanes, Dm(m.from_))| <= i < |lines| && lines[i].Record? && DirectRecord(lines[i].env, m)
  {
    var host := g.hosts[a];
    var msgs := LocalMessages(host.inboxes, names);
    LocalMessagesElements(host.inboxes, names);
    forall c | c in msgs ensures Placed(host.inboxes, c) {
      var k :| 0 <= k < |names| && c in InboxOf(host.inboxes, names[k]);
      assert names[k] in names;
    }
    var n :| n in host.inboxes && m in host.inboxes[n];
    assert n in names;
    assert m in msgs;
    assert '#' != m.to[0];
    i := PassPublishes(Outbox(host.lanes, host.ledger, 0, false), msgs, cfg, m);
  }

  /** A host that has not read a foreign message's record holds no copy of it. */
  lemma NothingBefore(g: Bus, b: nat, lane: Lane, i: nat, m: Msg, n: string)
    requires Inv(g) && b in g.hosts && UnreadAt(g, b, lane, i, m) && Carries(g, lane, i, m.id)
    requires g.home(lane.author) != b
    ensures Copies(g.hosts[b].inboxes, n, m.id) == []
  {
    NoCopies(g.hosts[b].inboxes, n, m.id);
    CarriedIsBorn(g, lane, i, m.id);
    forall c | c in InboxOf(g.hosts[b].inboxes, n) ensures c.id != m.id {
      assert Placed(g.hosts[b].inboxes, c);
      assert GoodFile(g, b, c);
    }
  }

  // ----- end to end -----

  lemma {:induction false} RunGrows(g: Bus, run: seq<Step>, g': Bus, lane: Lane)
    requires Sound(g) && Reaches(g, run, g')
    ensures Sound(g') && g'.home == g.home && g'.hosts.Keys == g.hosts.Keys
    ensures AuthorLane(g, lane) <= AuthorLane(g', lane)
    decreases |run|
  {
    if run != [] {
      StepGrows(g, run[0], lane);
      StepKeepsSound(g, run[0]);
      RunGrows(Next(g, run[0]), run[1..], g', lane);
    }
  }

  /** End to end, over any run: a new direct message, an outbound pass at its sender's host,
      then anything at all on any host, then the first inbound pass at another host that reads
      past the old end of the sender's lane, with the lane up to date. That host's inbox of
      the recipient then holds exactly one copy, equal to the original but for a pending
      state, no read time and the git tag; no other inbox there holds any. */
  lemma EndToEnd(g: Bus, a: nat, b: nat, names: seq<string>, cfg: OutCfg, m: Msg, run: seq<Step>, g2: Bus,
                 files: seq<Lane>, subs: map<string, seq<string>>)
    requires Inv(g) && a in g.hosts && b in g.hosts && a != b && NewDirect(g, a, m, cfg)
    requires Enabled(g, Step.Outbound(a, names, cfg)) && !Out(g.hosts[a], names, cfg).raised
    requires
      var s := Step.Outbound(a, names, cfg);
      Homed(Next(g, s)) && Reaches(Next(g, s), run, g2) && Orderly(g, s) && OrderlyRun(Next(g, s), run, g2)
    requires Homed(g2) && Enabled(g2, Step.Inbound(b, files, subs))
    requires Consumed(g2.hosts[b].cursor, Dm(m.from_)) <= |AuthorLane(g, Dm(m.from_))|
    requires LinesOf(g2.hosts[b].lanes, Dm(m.from_)) == AuthorLane(g2, Dm(m.from_))
    ensures
      var inboxes := Next(g2, Step.Inbound(b, files, subs)).hosts[b].inboxes;
      && Copies(inboxes, m.to, m.id) == [m.(state := Pending, readAt := 0, via := Git)]
      && forall n :: n != m.to ==> Copies(inboxes, n, m.id) == []
  {
    var i := RecordWaits(g, a, b, names, cfg, m, run, g2);
    forall n ensures Copies(Next(g2, Step.Inbound(b, files, subs)).hosts[b].inboxes, n, m.id) ==
      if n == m.to then [Delivered(m)] else []
    {
      NothingBefore(g2, b, Dm(m.from_), i, m, n);
      InboundDelivers(g2, b, files, subs, i, m, n);
    }
  }

  /** At the end of such a run the record is in front of the receiver, unread. */
  lemma RecordWaits(g: Bus, a: nat, b: nat, names: seq<string>, cfg: OutCfg, m: Msg, run: seq<Step>, g2: Bus)
      returns (i: nat)
    requires Inv(g) && a in g.hosts && b in g.hosts && a != b && NewDirect(g, a, m, cfg)
    requires Enabled(g, Step.Outbound(a, names, cfg)) && !Out(g.hosts[a], names, cfg).raised
    requires
      var s := Step.Outbound(a, names, cfg);
      Homed(Next(g, s)) && Reaches(Next(g, s), run, g2) && Orderly(g, s) && OrderlyRun(Next(g, s), run, g2)
    requires Homed(g2) && b in g2.hosts
    requires Consumed(g2.hosts[b].cursor, Dm(m.from_)) <= |AuthorLane(g, Dm(m.from_))|
    requires LinesOf(g2.hosts[b].lanes, Dm(m.from_)) == AuthorLane(g2, Dm(m.from_))
    ensures Inv(g2) && Unread(g2, b, i, m) && Carries(g2, Dm(m.from_), i, m.id) && g2.home(m.from_) == a
  {
    var s := Step.Outbound(a, names, cfg);
    var g1 := Next(g, s);
    i := SenderPublishes(g, a, names, cfg, m);
    assert GoodFile(g, a, m);
    StepOneRecordIff(g, s);
    OneRecordIff(g1, run, g2);
    RunGrows(g1, run, g2, Dm(m.from_));
  }

  lemma {:induction false} CursorStays(g: Bus, run: seq<Step>, g': Bus, b: nat)
    requires Sound(g) && Reaches(g, run, g') && b in g.hosts
    requires forall s :: s in run ==> !Reads(s, b)
    ensures Sound(g') && b in g'.hosts && g'.hosts[b].cursor == g.hosts[b].cursor
    decreases |run|
  {
    if run != [] {
      assert run[0] in run;
      StepKeepsSound(g, run[0]);
      CursorAdvances(g, run[0], b, Dm(""));
      CursorStays(Next(g, run[0]), run[1..], g', b);
    }
  }

  /** The sender's own inbound pass echoes its message exactly when the original has left
      the inbox its `to` names, for instance because a session inherited it in between. */
  lemma OwnEchoIff(g: Bus, a: nat, files: seq<Lane>, subs: map<string, seq<string>>, i: nat, m: Msg)
    requires Inv(g) && a in g.hosts && a == g.home(m.from_)
    requires Listing(g.hosts[a].lanes, files) && Unread(g, a, i, m)
    ensures
      var after := Next(g, Step.Inbound(a, files, subs)).hosts[a].inboxes;
      (forall n :: Copies(after, n, m.id) == Copies(g.hosts[a].inboxes, n, m.id)) <==>
      m.id in IdsIn(InboxOf(g.hosts[a].inboxes, m.to))
  {
    var after := Next(g, Step.Inbound(a, files, subs)).hosts[a].inboxes;
    NoCopies(g.hosts[a].inboxes, m.to, m.id);
    forall n ensures Copies(after, n, m.id) ==
      Copies(g.hosts[a].inboxes, n, m.id) +
      if n == m.to && Copies(g.hosts[a].inboxes, n, m.id) == [] then [Delivered(m)] else []
    {
      InboundDelivers(g, a, files, subs, i, m, n);
    }
    if Copies(g.hosts[a].inboxes, m.to, m.id) == [] {
      assert Copies(after, m.to, m.id) != Copies(g.hosts[a].inboxes, m.to, m.id);
    }
  }
}
