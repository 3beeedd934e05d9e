/** `GitBridge`: mirror one relay to and from a git clone (git_bridge.py). */
module Bridge {
  import opened Ids
  import opened Messages
  import opened Order
  import opened Lanes
  import opened Transport
  import opened Replication
  import Pacing

  /** The inbox directories of one host. */
  class Relay {
    var inboxes: Inboxes

    constructor (inboxes: Inboxes)
      ensures this.inboxes == inboxes
    {
      this.inboxes := inboxes;
    }

    /** The inbox names, in some order. */
    method InboxDirs() returns (names: seq<string>)
      ensures Names(inboxes, names)
    {
      names := [];
      var rest := inboxes.Keys;
      while rest != {}
        invariant rest <= inboxes.Keys
        invariant forall n :: n in names <==> n in inboxes && n !in rest
        invariant Distinct(names)
        decreases rest
      {
        var n :| n in rest;
        names := names + [n];
        rest := rest - {n};
      }
    }
  }

  lemma ValidIdOnBus(s: string)
    requires ValidId(s)
    ensures ValidBusId(s)
  {
  }

  /** The state an outbound pass leaves: the ledger is cut to its young entries and saved only
      if something was published and nothing raised. */
  ghost predicate LedgerAfter(o: Outbox, oldSaved: Ledger, now: real, ledger: Ledger, saved: Ledger) {
    if o.published > 0 && !o.raised then ledger == saved && KeptYoung(o.ledger, now, ledger)
    else ledger == o.ledger && saved == oldSaved
  }

  /** The outbound pass raised: in a publish, or pushing what it published. */
  predicate Halted(o: Outbox, pushFails: bool) { o.raised || (o.published > 0 && pushFails) }

  /** What an inbound pass leaves that stops at place `c` of all it has to deliver: every unread
      record consumed, whether it was delivered or not. */
  ghost predicate Received(clone: Lanes, start: Cursor, files: seq<Lane>, subs: map<string, seq<string>>,
                           before: Inboxes, fails: WriteFaults, c: nat,
                           cursor: Cursor, saved: Cursor, inboxes: Inboxes)
  {
    var slots := Slots(Envs(Batch(clone, start, files, READER_ID)), subs);
    && Listing(clone, files)
    && cursor == saved == Advanced(clone, start, files)
    && StopsAt(before, slots, fails, c)
    && inboxes == DeliverSlots(before, slots[..c])
  }

  /** The pass got to its end. */
  ghost predicate Finished(clone: Lanes, start: Cursor, files: seq<Lane>, subs: map<string, seq<string>>, c: nat) {
    c == |Slots(Envs(Batch(clone, start, files, READER_ID)), subs)|
  }

  /** Then every unread record was handed to its recipients. */
  lemma FinishedDeliversAll(clone: Lanes, start: Cursor, files: seq<Lane>, subs: map<string, seq<string>>,
                            before: Inboxes, fails: WriteFaults, c: nat,
                            cursor: Cursor, saved: Cursor, inboxes: Inboxes)
    requires Received(clone, start, files, subs, before, fails, c, cursor, saved, inboxes)
    requires Finished(clone, start, files, subs, c)
    ensures inboxes == DeliverAll(before, Envs(Batch(clone, start, files, READER_ID)), subs)
  {
    var batch := Envs(Batch(clone, start, files, READER_ID));
    assert Slots(batch, subs)[..c] == Slots(batch, subs);
    DeliverSlotsAll(before, batch, subs);
  }

  ghost predicate HasId(msgs: seq<Msg>, id: string) {
    exists m :: m in msgs && m.id == id
  }

  /** Some inbox holds a locally sent, unexpired message with this id. */
  ghost predicate Backlogged(inboxes: Inboxes, id: string) {
    exists n, m :: n in inboxes && m in inboxes[n] && Mirrored(m) && m.id == id
  }

  ghost predicate Seeded(before: Ledger, msgs: seq<Msg>, ledger: Ledger) {
    forall id :: id in ledger <==> id in before || (id != "" && HasId(msgs, id))
  }

  lemma SeedStep(before: Ledger, msgs: seq<Msg>, i: nat, ledger: Ledger, now: real)
    requires i < |msgs| && Seeded(before, msgs[..i], ledger)
    ensures
      var id := msgs[i].id;
      Seeded(before, msgs[..i + 1], if id != "" && id !in ledger then ledger[id := now] else ledger)
  {
    assert msgs[..i + 1] == msgs[..i] + [msgs[i]];
    forall id ensures HasId(msgs[..i + 1], id) <==> HasId(msgs[..i], id) || id == msgs[i].id {
      if HasId(msgs[..i], id) {
        var m :| m in msgs[..i] && m.id == id;
        assert m in msgs[..i + 1];
      }
      if id == msgs[i].id {
        assert msgs[i] in msgs[..i + 1];
      }
    }
  }

  class GitBridge {
    const relay: Relay
    const reader: GitBus
    const mirrorAll: bool
    const pacing: Pacing.Config
    var writers: map<string, GitBus>
    var ledger: Ledger
    var savedLedger: Ledger
    var fetchEvery: real
    var nextFetch: real

    ghost predicate Valid()
      reads this
    {
      && reader.agentId == READER_ID
      && pacing.Valid()
      && forall s :: s in writers ==> writers[s].agentId == s && writers[s].repo == reader.repo
    }

    ghost function Pace(): Pacing.Pace
      reads this
    {
      Pacing.Pace(fetchEvery, nextFetch)
    }

    /** With no ledger on disk the messages already present are backlog, not traffic: they
        are recorded as handled, and the ledger is saved even when there were none. */
    constructor (relay: Relay, reader: GitBus, mirrorAll: bool, pacing: Pacing.Config, onDisk: Option<Ledger>,
                 now: real)
      requires reader.agentId == READER_ID && pacing.Valid()
      ensures Valid() && this.relay == relay && this.reader == reader
      ensures this.mirrorAll == mirrorAll && this.pacing == pacing && writers == map[]
      ensures Pace() == Pacing.Pace(pacing.poll, 0.0)
      ensures onDisk.Some? ==> KeptYoung(onDisk.value, now, ledger) && savedLedger == onDisk.value
      ensures onDisk.None? ==>
        && ledger == savedLedger
        && (forall id :: id in ledger <==> id != "" && Backlogged(relay.inboxes, id))
        && forall id :: id in ledger ==> ledger[id] == now
    {
      this.relay := relay;
      this.reader := reader;
      this.mirrorAll := mirrorAll;
      this.pacing := pacing;
      this.writers := map[];
      this.fetchEvery := pacing.poll;
      this.nextFetch := 0.0;
      this.savedLedger := if onDisk.Some? then onDisk.value else map[];
      this.ledger := if onDisk.Some? then Pruned(onDisk.value, now) else map[];
      if onDisk.Some? {
        PrunedKeepsYoung(onDisk.value, now);
      }
      new;
      if onDisk.None? {
        SeedLedgerFromBacklog(now);
      }
    }

    /** First run: record what is already there as handled, without publishing it, and save
        the ledger even when nothing was there. */
    method SeedLedgerFromBacklog(now: real)
      modifies this`ledger, this`savedLedger
      ensures ledger == savedLedger
      ensures forall id :: id in ledger <==> id in old(ledger) || (id != "" && Backlogged(relay.inboxes, id))
      ensures forall id :: id in ledger ==> ledger[id] == if id in old(ledger) then old(ledger)[id] else now
    {
      var msgs, names := LocalMessagesOf();
      ghost var before := ledger;
      var i := 0;
      while i < |msgs|
        invariant 0 <= i <= |msgs|
        invariant Seeded(before, msgs[..i], ledger)
        invariant forall id :: id in ledger ==> ledger[id] == if id in before then before[id] else now
      {
        SeedStep(before, msgs, i, ledger, now);
        if msgs[i].id != "" && msgs[i].id !in ledger {
          ledger := ledger[msgs[i].id := now];
        }
        i := i + 1;
      }
      savedLedger := ledger;
      assert msgs[..i] == msgs;
      SeededIds(relay.inboxes, names, msgs);
    }

    /** Every mirrored message of every inbox: the scan both passes share. */
    method LocalMessagesOf() returns (msgs: seq<Msg>, ghost names: seq<string>)
      ensures Names(relay.inboxes, names)
      ensures msgs == LocalMessages(relay.inboxes, names)
    {
      var dirs := relay.InboxDirs();
      names := dirs;
      msgs := [];
      assert dirs[0..] == dirs;
      var i := 0;
      while i < |dirs|
        invariant 0 <= i <= |dirs|
        invariant msgs + LocalMessages(relay.inboxes, dirs[i..]) == LocalMessages(relay.inboxes, dirs)
      {
        var files := InboxOf(relay.inboxes, dirs[i]);
        msgs := ScanInbox(msgs, files);
        assert dirs[i..][1..] == dirs[i + 1..];
        i := i + 1;
      }
    }

    /** The scan of one inbox. */
    method ScanInbox(before: seq<Msg>, files: seq<Msg>) returns (msgs: seq<Msg>)
      ensures forall rest: seq<Msg> :: msgs + rest == before + (Filter(MirroredOnly(), files) + rest)
    {
      msgs := before;
      assert files[0..] == files;
      var j := 0;
      while j < |files|
        invariant 0 <= j <= |files|
        invariant msgs + Filter(MirroredOnly(), files[j..]) == before + Filter(MirroredOnly(), files)
      {
        if files[j].via == Local && files[j].state != Expired {
          msgs := msgs + [files[j]];
        }
        j := j + 1;
      }
      forall rest: seq<Msg> ensures msgs + rest == before + (Filter(MirroredOnly(), files) + rest) {
        assert msgs == before + Filter(MirroredOnly(), files);
        Regroup(before, Filter(MirroredOnly(), files), rest);
      }
    }

    method Writer(sender: string) returns (bus: GitBus)
      requires Valid()
      modifies this`writers
      ensures Valid() && bus.agentId == sender && bus.repo == reader.repo
    {
      if sender in writers {
        bus := writers[sender];
      } else {
        bus := new GitBus(reader.repo, sender, map[]);
        writers := writers[sender := bus];
      }
    }

    /** Publish one local message to its sender's lane. Ok(false): not for the bus. */
    method Publish(m: Msg, live: set<string>, stamp: Stamp) returns (r: Result<bool>)
      requires Valid()
      modifies this`writers, reader.repo
      ensures Valid()
      ensures
        var route, before := RouteOf(m, live, mirrorAll), old(reader.repo.lanes);
        if route == NotBridged then r == Ok(false) && reader.repo.lanes == before
        else
          && r == (if OneLine(m.thread) && stamp.fault == NoFault then Ok(true) else Raised)
          && reader.repo.lanes ==
             (if OneLine(m.thread) && stamp.fault != BeforeWrite
              then Appended(before, RecordFor(before, m, route, stamp))
              else before)
    {
      if m.to == "" || m.to == "all" {
        return Ok(false);
      }
      if !ValidId(m.from_) {
        return Ok(false);
      }
      if m.to[0] == '#' {
        var chan := m.to[1..];
        if !ValidId(chan) {
          return Ok(false);
        }
        ValidIdOnBus(chan);
        var bus := Writer(m.from_);
        var sent := bus.Publish(m, None, Some(chan), "message", m.thread, m.ttl, stamp.recId, stamp.now, stamp.fault);
        return if sent.Ok? then Ok(true) else Raised;
      }
      if !ValidId(m.to) {
        return Ok(false);
      }
      if !mirrorAll && m.to in live {
        return Ok(false);
      }
      ValidIdOnBus(m.to);
      var bus := Writer(m.from_);
      var sent := bus.Publish(m, Some(m.to), None, "message", m.thread, m.ttl, stamp.recId, stamp.now, stamp.fault);
      r := if sent.Ok? then Ok(true) else Raised;
    }

    /** The turn of one message: skip what is handled, else route it and record it. */
    method Consider(m: Msg, published: nat, live: set<string>, stamps: string -> Stamp, now: real)
      returns (r: Result<nat>)
      requires Valid()
      modifies this`ledger, this`writers, reader.repo
      ensures Valid()
      ensures
        var o := PublishOne(Outbox(old(reader.repo.lanes), old(ledger), published, false), m,
          OutCfg(live, mirrorAll, stamps, now));
        && reader.repo.lanes == o.clone && ledger == o.ledger
        && r == if o.raised then Raised else Ok(o.published)
    {
      if m.id == "" || m.id in ledger {
        return Ok(published);
      }
      var sent := Publish(m, live, stamps(m.id));
      if sent == Raised {
        return Raised;
      }
      ledger := ledger[m.id := now];
      r := Ok(if sent.value then published + 1 else published);
    }

    /** The loop of the outbound pass, up to the first raise. */
    method PublishEach(msgs: seq<Msg>, live: set<string>, stamps: string -> Stamp, now: real) returns (r: Result<nat>)
      requires Valid()
      modifies this`ledger, this`writers, reader.repo
      ensures Valid()
      ensures
        var o := PublishAll(Outbox(old(reader.repo.lanes), old(ledger), 0, false), msgs,
          OutCfg(live, mirrorAll, stamps, now));
        && reader.repo.lanes == o.clone && ledger == o.ledger
        && r == if o.raised then Raised else Ok(o.published)
    {
      var published := 0;
      ghost var cfg := OutCfg(live, mirrorAll, stamps, now);
      ghost var start := Outbox(reader.repo.lanes, ledger, 0, false);
      assert msgs[0..] == msgs;
      var i := 0;
      while i < |msgs|
        invariant 0 <= i <= |msgs|
        invariant Valid()
        invariant PublishAll(Outbox(reader.repo.lanes, ledger, published, false), msgs[i..], cfg) ==
          PublishAll(start, msgs, cfg)
      {
        assert msgs[i..][1..] == msgs[i + 1..];
        var sent := Consider(msgs[i], published, live, stamps, now);
        if sent == Raised {
          RaisedStays(Outbox(reader.repo.lanes, ledger, published, true), msgs[i + 1..], cfg);
          return Raised;
        }
        published := sent.value;
        i := i + 1;
      }
      r := Ok(published);
    }

    /** Publish what is new. A raising publish ends the pass with the ledger unsaved; a
        failing push raises after it was saved. */
    method Outbound(live: set<string>, stamps: string -> Stamp, now: real, pushFails: bool)
        returns (r: Result<nat>, ghost names: seq<string>)
      requires Valid()
      modifies this`ledger, this`savedLedger, this`writers, reader.repo
      ensures Valid() && Names(relay.inboxes, names)
      ensures
        var o := PublishAll(Outbox(old(reader.repo.lanes), old(ledger), 0, false),
                            LocalMessages(relay.inboxes, names), OutCfg(live, mirrorAll, stamps, now));
        && reader.repo.lanes == o.clone
        && r == (if Halted(o, pushFails) then Raised else Ok(o.published))
        && LedgerAfter(o, old(savedLedger), now, ledger, savedLedger)
    {
      var msgs, dirs := LocalMessagesOf();
      names := dirs;
      r := PublishEach(msgs, live, stamps, now);
      if r.Ok? && r.value > 0 {
        PrunedKeepsYoung(ledger, now);
        ledger := Pruned(ledger, now);
        savedLedger := ledger;
        if pushFails {
          r := Raised;
        }
      }
    }

    /** Drain and materialize. The cursor is past the whole batch even if a write then fails. */
    method Inbound(subs: map<string, seq<string>>, fails: WriteFaults)
      returns (r: Result<nat>, ghost files: seq<Lane>, ghost c: nat)
      requires Valid()
      modifies relay, reader
      ensures Received(reader.repo.lanes, old(reader.cursor), files, subs, old(relay.inboxes), fails, c,
                       reader.cursor, reader.saved, relay.inboxes)
      ensures r.Ok? <==> Finished(reader.repo.lanes, old(reader.cursor), files, subs, c)
      ensures r == Ok(0) ==> relay.inboxes == old(relay.inboxes)
    {
      var batch, listing := reader.Drain();
      files := listing;
      r, c := Materialize(batch, subs, fails);
    }

    /** The loop of the inbound pass: the ids of an inbox are read once and kept up to date,
        so a message already there is not written again. */
    method Materialize(batch: seq<Env>, subs: map<string, seq<string>>, fails: WriteFaults)
      returns (r: Result<nat>, ghost c: nat)
      modifies relay
      ensures StopsAt(old(relay.inboxes), Slots(batch, subs), fails, c)
      ensures relay.inboxes == DeliverSlots(old(relay.inboxes), Slots(batch, subs)[..c])
      ensures r.Ok? <==> c == |Slots(batch, subs)|
      ensures r == Ok(0) ==> relay.inboxes == old(relay.inboxes)
    {
      var materialized := 0;
      var present: map<string, set<string>> := map[];
      ghost var before := relay.inboxes;
      c := 0;
      BatchBegins(before, batch, subs, fails);
      var i := 0;
      while i < |batch|
        invariant 0 <= i <= |batch|
        invariant forall n :: n in present ==> present[n] == IdsIn(InboxOf(relay.inboxes, n))
        invariant InBatch(before, batch, subs, fails, i, c, relay.inboxes)
        invariant materialized == 0 ==> relay.inboxes == before
      {
        ghost var was := relay.inboxes;
        var landed, known, k := DeliverEnvelope(batch[i], subs, present, fails);
        BatchGoesOn(before, batch, subs, fails, i, c, was, k);
        c := c + k;
        if landed.Raised? {
          return Raised, c;
        }
        present, materialized := known, materialized + landed.value;
        i := i + 1;
      }
      BatchEnds(before, batch, subs, fails, c, relay.inboxes);
      r := Ok(materialized);
    }

    method DeliverEnvelope(env: Env, subs: map<string, seq<string>>, known: map<string, set<string>>,
                           fails: WriteFaults)
      returns (r: Result<nat>, present: map<string, set<string>>, ghost c: nat)
      requires forall n :: n in known ==> known[n] == IdsIn(InboxOf(relay.inboxes, n))
      modifies relay
      ensures StopsAt(old(relay.inboxes), SlotsOf(env, subs), fails, c)
      ensures relay.inboxes == DeliverSlots(old(relay.inboxes), SlotsOf(env, subs)[..c])
      ensures r.Ok? <==> c == |SlotsOf(env, subs)|
      ensures forall n :: n in present ==> present[n] == IdsIn(InboxOf(relay.inboxes, n))
      ensures r == Ok(0) ==> relay.inboxes == old(relay.inboxes)
    {
      if env.body.None? {
        return Ok(0), known, 0;
      }
      r, present, c := DeliverRecord(env.body.value, Recipients(env, subs), known, fails);
    }

    /** Write one copy, and keep the ids of its inbox up to date. */
    method WriteCopy(rcpt: string, m: Msg, known: map<string, set<string>>) returns (present: map<string, set<string>>)
      requires forall n :: n in known ==> known[n] == IdsIn(InboxOf(relay.inboxes, n))
      requires m.id != "" ==> rcpt in known
      modifies relay
      ensures relay.inboxes == old(relay.inboxes)[rcpt := InboxOf(old(relay.inboxes), rcpt) + [Delivered(m)]]
      ensures forall n :: n in present ==> present[n] == IdsIn(InboxOf(relay.inboxes, n))
    {
      IdsInAppend(InboxOf(relay.inboxes, rcpt), Delivered(m));
      relay.inboxes := relay.inboxes[rcpt := InboxOf(relay.inboxes, rcpt) + [Delivered(m)]];
      present := if m.id != "" then known[rcpt := known[rcpt] + {m.id}] else known;
    }

    /** One record into each of its recipients' inboxes, up to the first failing write. */
    method DeliverRecord(m: Msg, rcpts: seq<string>, known: map<string, set<string>>, fails: WriteFaults)
      returns (r: Result<nat>, present: map<string, set<string>>, ghost c: nat)
      requires forall n :: n in known ==> known[n] == IdsIn(InboxOf(relay.inboxes, n))
      modifies relay
      ensures StopsAt(old(relay.inboxes), SlotsFor(rcpts, m), fails, c)
      ensures relay.inboxes == DeliverSlots(old(relay.inboxes), SlotsFor(rcpts, m)[..c])
      ensures r.Ok? <==> c == |rcpts|
      ensures forall n :: n in present ==> present[n] == IdsIn(InboxOf(relay.inboxes, n))
      ensures r == Ok(0) ==> relay.inboxes == old(relay.inboxes)
    {
      var landed := 0;
      present := known;
      ghost var before, slots := relay.inboxes, SlotsFor(rcpts, m);
      var k := 0;
      while k < |rcpts|
        invariant 0 <= k <= |rcpts|
        invariant forall n :: n in present ==> present[n] == IdsIn(InboxOf(relay.inboxes, n))
        invariant UpTo(before, slots, fails, k, relay.inboxes)
        invariant landed == 0 ==> relay.inboxes == before
      {
        var rcpt := rcpts[k];
        SlotStep(before, slots, fails, k, relay.inboxes);
        if ValidId(rcpt) {
          if m.id != "" && rcpt !in present {
            present := present[rcpt := IdsIn(InboxOf(relay.inboxes, rcpt))];
          }
          if m.id == "" || m.id !in present[rcpt] {
            if fails(rcpt, m.id) {
              return Raised, present, k;
            }
            present := WriteCopy(rcpt, m, present);
            landed := landed + 1;
          }
        }
        k := k + 1;
      }
      r, c := Ok(landed), |rcpts|;
    }

    /** The second half of a tick: fetch and drain if due, and set the pace. A fetch that
        raises leaves everything as it was; a failing write leaves the pace and what was
        delivered until then. */
    method InboundIfDue(published: nat, subs: map<string, seq<string>>, incoming: Lanes, mono: real, fetchFails: bool,
                        fails: WriteFaults)
      returns (r: Result<nat>, ghost files: seq<Lane>, ghost c: nat)
      requires Valid() && (published > 0 ==> Pace() == Pacing.Quicken(pacing))
      modifies this`fetchEvery, this`nextFetch, reader, reader.repo, relay
      ensures
        var fetched := Pacing.Due(old(Pace()), pacing, mono) && !fetchFails;
        && (r.Ok? ==> Pace() == Pacing.AfterTick(old(Pace()), pacing, Pacing.Tick(mono, published > 0, r.value > 0)))
        && (r.Raised? ==> Pace() == old(Pace()))
        && if fetched
           then
             && reader.repo.lanes == Fetched(old(reader.repo.lanes), incoming)
             && Received(reader.repo.lanes, old(reader.cursor), files, subs, old(relay.inboxes), fails, c,
                         reader.cursor, reader.saved, relay.inboxes)
             && (r.Ok? <==> Finished(reader.repo.lanes, old(reader.cursor), files, subs, c))
           else
             && unchanged(relay) && unchanged(reader) && unchanged(reader.repo)
             && r == if Pacing.Due(old(Pace()), pacing, mono) then Raised else Ok(0)
    {
      files, c := [], 0;
      if pacing.max != 0.0 && mono < nextFetch {
        return Ok(0), files, c;
      }
      if fetchFails {
        return Raised, files, c;
      }
      reader.Fetch(incoming);
      var received, listing, stop := Inbound(subs, fails);
      files, c := listing, stop;
      if received.Raised? {
        return Raised, files, c;
      }
      SetPace(received.value > 0 || published > 0, mono);
      r := Ok(received.value);
    }

    /** After a drain: back to the poll interval on traffic, else slower up to the ceiling. */
    method SetPace(traffic: bool, mono: real)
      modifies this`fetchEvery, this`nextFetch
      ensures Pace() == if traffic then Pacing.Quicken(pacing) else Pacing.SlowDown(old(Pace()), pacing, mono)
    {
      if traffic {
        fetchEvery, nextFetch := pacing.poll, 0.0;
      } else {
        fetchEvery := Min(fetchEvery * 2.0, pacing.max);
        nextFetch := mono + fetchEvery;
      }
    }

    /** The pace a tick leaves once its outbound pass got through, and how many it published. */
    ghost predicate SecondHalf(before: Pacing.Pace, o: Outbox, mono: real, r: Result<(nat, nat)>)
      reads this
    {
      if r.Raised? then Pace() == Pacing.AfterOutbound(before, pacing, Pacing.Tick(mono, o.published > 0, false))
      else
        && r.value.0 == o.published
        && Pace() == Pacing.AfterTick(before, pacing, Pacing.Tick(mono, o.published > 0, r.value.1 > 0))
    }

    /** The tick gets to its drain. */
    predicate Drains(before: Pacing.Pace, o: Outbox, mono: real, pushFails: bool, fetchFails: bool) {
      && !Halted(o, pushFails) && !fetchFails
      && Pacing.Due(Pacing.AfterOutbound(before, pacing, Pacing.Tick(mono, o.published > 0, false)), pacing, mono)
    }

    /** One tick: outbound always, inbound when a fetch is due. `incoming` is what that
        fetch brings. */
    method Tick(live: set<string>, subs: map<string, seq<string>>, stamps: string -> Stamp, incoming: Lanes,
                now: real, mono: real, pushFails: bool, fetchFails: bool, fails: WriteFaults)
      returns (r: Result<(nat, nat)>, ghost names: seq<string>, ghost files: seq<Lane>, ghost c: nat)
      requires Valid()
      modifies this`ledger, this`savedLedger, this`writers, this`fetchEvery, this`nextFetch, reader, reader.repo, relay
      ensures Valid() && Names(old(relay.inboxes), names)
      ensures
        var o := PublishAll(Outbox(old(reader.repo.lanes), old(ledger), 0, false),
                            LocalMessages(old(relay.inboxes), names), OutCfg(live, mirrorAll, stamps, now));
        var q := Pacing.AfterOutbound(old(Pace()), pacing, Pacing.Tick(mono, o.published > 0, false));
        && LedgerAfter(o, old(savedLedger), now, ledger, savedLedger)
        && (if Halted(o, pushFails) then r == Raised && Pace() == old(Pace())
            else SecondHalf(old(Pace()), o, mono, r))
        && if Drains(old(Pace()), o, mono, pushFails, fetchFails)
           then
             && reader.repo.lanes == Fetched(o.clone, incoming)
             && Received(reader.repo.lanes, old(reader.cursor), files, subs, old(relay.inboxes), fails, c,
                         reader.cursor, reader.saved, relay.inboxes)
             && (r.Ok? <==> Finished(reader.repo.lanes, old(reader.cursor), files, subs, c))
           else
             && reader.repo.lanes == o.clone && unchanged(relay) && unchanged(reader)
             && (r.Ok? <==> !Halted(o, pushFails) && !Pacing.Due(q, pacing, mono))
    {
      files, c := [], 0;
      var sent, dirs := Outbound(live, stamps, now, pushFails);
      names := dirs;
      if sent == Raised {
        return Raised, names, files, c;
      }
      if sent.value > 0 {
        fetchEvery, nextFetch := pacing.poll, 0.0;
      }
      var received, listing, stop := InboundIfDue(sent.value, subs, incoming, mono, fetchFails, fails);
      files, c := listing, stop;
      r := if received.Ok? then Ok((sent.value, received.value)) else Raised;
    }
  }

  /** In front of record `i`, at place `c` of all slots, no write has failed. */
  ghost predicate InBatch(before: Inboxes, batch: seq<Env>, subs: map<string, seq<string>>, fails: WriteFaults,
                          i: nat, c: nat, inboxes: Inboxes)
  {
    i <= |batch| && c == |Slots(batch[..i], subs)| && UpTo(before, Slots(batch[..i], subs), fails, c, inboxes)
  }

  lemma BatchBegins(before: Inboxes, batch: seq<Env>, subs: map<string, seq<string>>, fails: WriteFaults)
    ensures InBatch(before, batch, subs, fails, 0, 0, before)
  {
    assert batch[..0] == [];
  }

  lemma SlotsAround(batch: seq<Env>, subs: map<string, seq<string>>, i: nat)
    requires i < |batch|
    ensures Slots(batch[..i + 1], subs) == Slots(batch[..i], subs) + SlotsOf(batch[i], subs)
    ensures Slots(batch, subs) == Slots(batch[..i], subs) + SlotsOf(batch[i], subs) + Slots(batch[i + 1..], subs)
  {
    assert batch[..i + 1] == batch[..i] + [batch[i]] && batch == batch[..i + 1] + batch[i + 1..];
    SlotsAppend(batch[..i], [batch[i]], subs);
    SlotsAppend(batch[..i + 1], batch[i + 1..], subs);
    assert Slots([batch[i]], subs) == SlotsOf(batch[i], subs) + Slots([batch[i]][1..], subs);
    assert Slots([batch[i]][1..], subs) == [];
  }

  lemma BatchGoesOn(before: Inboxes, batch: seq<Env>, subs: map<string, seq<string>>, fails: WriteFaults,
                    i: nat, c: nat, was: Inboxes, k: nat)
    requires i < |batch| && InBatch(before, batch, subs, fails, i, c, was)
    requires StopsAt(was, SlotsOf(batch[i], subs), fails, k)
    ensures
      var after := DeliverSlots(was, SlotsOf(batch[i], subs)[..k]);
      if k == |SlotsOf(batch[i], subs)| then InBatch(before, batch, subs, fails, i + 1, c + k, after)
      else
        && c + k < |Slots(batch, subs)| && StopsAt(before, Slots(batch, subs), fails, c + k)
        && after == DeliverSlots(before, Slots(batch, subs)[..c + k])
  {
    SlotsAround(batch, subs, i);
    SlotsGoOn(before, Slots(batch[..i], subs), SlotsOf(batch[i], subs), Slots(batch[i + 1..], subs),
              Slots(batch[..i + 1], subs), Slots(batch, subs), fails, c, k, was);
  }

  lemma SlotsGoOn(before: Inboxes, done: seq<Slot>, mine: seq<Slot>, rest: seq<Slot>, next: seq<Slot>, all: seq<Slot>,
                  fails: WriteFaults, c: nat, k: nat, was: Inboxes)
    requires c == |done| && UpTo(before, done, fails, c, was) && StopsAt(was, mine, fails, k)
    requires next == done + mine && all == done + mine + rest
    ensures k == |mine| ==> c + k == |next| && UpTo(before, next, fails, c + k, DeliverSlots(was, mine[..k]))
    ensures k < |mine| ==>
      && c + k < |all| && StopsAt(before, all, fails, c + k)
      && DeliverSlots(was, mine[..k]) == DeliverSlots(before, all[..c + k])
  {
    if k == |mine| {
      GoesThrough(before, done, mine, next, fails, was);
    } else {
      StopsInside(before, done, mine, rest, all, fails, k, was);
    }
  }

  lemma BatchEnds(before: Inboxes, batch: seq<Env>, subs: map<string, seq<string>>, fails: WriteFaults, c: nat,
                  inboxes: Inboxes)
    requires InBatch(before, batch, subs, fails, |batch|, c, inboxes)
    ensures c == |Slots(batch, subs)| && StopsAt(before, Slots(batch, subs), fails, c)
    ensures inboxes == DeliverSlots(before, Slots(batch, subs)[..c])
  {
    assert batch[..|batch|] == batch;
  }

  lemma IdsInAppend(msgs: seq<Msg>, m: Msg)
    ensures IdsIn(msgs + [m]) == if m.id == "" then IdsIn(msgs) else IdsIn(msgs) + {m.id}
  {
    forall x ensures x in IdsIn(msgs + [m]) <==> x in IdsIn(msgs) || (x == m.id && m.id != "") {
      if x in IdsIn(msgs) {
        var y :| y in msgs && y.id != "" && y.id == x;
        assert y in msgs + [m];
      }
    }
    assert m in msgs + [m];
  }

  lemma SeededIds(inboxes: Inboxes, names: seq<string>, msgs: seq<Msg>)
    requires Names(inboxes, names) && msgs == LocalMessages(inboxes, names)
    ensures forall id :: HasId(msgs, id) <==> Backlogged(inboxes, id)
  {
    LocalMessagesElements(inboxes, names);
    forall id ensures HasId(msgs, id) <==> Backlogged(inboxes, id) {
      if HasId(msgs, id) {
        var m :| m in msgs && m.id == id;
        var k :| 0 <= k < |names| && m in InboxOf(inboxes, names[k]);
        assert names[k] in names;
        assert m in inboxes[names[k]];
      }
      if Backlogged(inboxes, id) {
        var n, m :| n in inboxes && m in inboxes[n] && Mirrored(m) && m.id == id;
        assert n in names;
        assert m in msgs;
      }
    }
  }
}
