/** The two passes of the git replicator as functions of one host's files (git_bridge.py
    and the translation seam of dispatch_fs.py). */
module Replication {
  import opened Ids
  import opened Messages
  import opened Order
  import opened Lanes
  import Transport

  type Inboxes = map<string, seq<Msg>>

  type Ledger = map<string, real>

  const READER_ID := "_gitsync"
  const LEDGER_TTL_SECONDS := 1209600.0

  /** What a pass draws from outside per message: the record id, the publish time, and where
      the publish fails, if it does. A crash inside the pass reads as such a failure. */
  datatype Stamp = Stamp(recId: string, now: int, fault: Fault)

  function InboxOf(inboxes: Inboxes, name: string): seq<Msg> {
    if name in inboxes then inboxes[name] else []
  }

  // ----- outbound -----

  /** `_local_messages` skips what crossed a bridge and what expired unread. */
  predicate Mirrored(m: Msg) { m.via == Local && m.state != Expired }

  function MirroredOnly(): Msg -> bool { (m: Msg) => Mirrored(m) }

  function LocalMessages(inboxes: Inboxes, names: seq<string>): seq<Msg> {
    if names == [] then []
    else Filter(MirroredOnly(), InboxOf(inboxes, names[0])) + LocalMessages(inboxes, names[1..])
  }

  datatype Route = NotBridged | ToAgent(agent: string) | ToChannel(chan: string)

  /** The routing decision of `_publish_one`. */
  function RouteOf(m: Msg, live: set<string>, mirrorAll: bool): Route {
    if m.to == "" || m.to == "all" || !ValidId(m.from_) then NotBridged
    else if m.to[0] == '#' then
      if ValidId(m.to[1..]) then ToChannel(m.to[1..]) else NotBridged
    else if !ValidId(m.to) || (!mirrorAll && m.to in live) then NotBridged
    else ToAgent(m.to)
  }

  /** What is for the bus: a valid sender's post to a channel, or its message to one agent that
      is not live here or is mirrored all the same; never a broadcast. */
  predicate BusBound(m: Msg, live: set<string>, mirrorAll: bool) {
    && ValidId(m.from_)
    && (|| (m.to != "" && m.to[0] == '#' && ValidId(m.to[1..]))
        || (ValidId(m.to) && m.to != "all" && (mirrorAll || m.to !in live)))
  }

  /** The record of a message: the whole message as its body, addressed as the message is. */
  predicate Envelope(env: Env, m: Msg) {
    && env.body == Some(m) && env.kind == "message" && env.from_ == m.from_ && env.key == m.thread && env.ttl == m.ttl
    && (if m.to != "" && m.to[0] == '#' then env.to == None && env.chan == Some(m.to[1..])
        else env.to == Some(m.to) && env.chan == None)
  }

  function RecordFor(clone: Lanes, m: Msg, route: Route, stamp: Stamp): Env
    requires route != NotBridged
  {
    var to := if route.ToAgent? then Some(route.agent) else None;
    var chan := if route.ToChannel? then Some(route.chan) else None;
    var lane := if route.ToChannel? then Chan(route.chan, m.from_) else Dm(m.from_);
    Env("message", m.from_, Some(m), to, chan, m.thread, stamp.recId, stamp.now, NextSeq(LinesOf(clone, lane)), m.ttl)
  }

  lemma RoutedIff(m: Msg, live: set<string>, mirrorAll: bool)
    ensures RouteOf(m, live, mirrorAll) != NotBridged <==> BusBound(m, live, mirrorAll)
  {
  }

  lemma RecordFits(clone: Lanes, m: Msg, live: set<string>, mirrorAll: bool, stamp: Stamp)
    requires RouteOf(m, live, mirrorAll) != NotBridged
    ensures Envelope(RecordFor(clone, m, RouteOf(m, live, mirrorAll), stamp), m) && BusBound(m, {}, true)
  {
  }

  /** The state an outbound pass works on. `raised` is set once a publish raised. */
  datatype Outbox = Outbox(clone: Lanes, ledger: Ledger, published: nat, raised: bool)

  datatype OutCfg = OutCfg(live: set<string>, mirrorAll: bool, stamps: string -> Stamp, now: real)

  function PublishOne(o: Outbox, m: Msg, cfg: OutCfg): Outbox {
    if o.raised || m.id == "" || m.id in o.ledger then o
    else
      var route, stamp := RouteOf(m, cfg.live, cfg.mirrorAll), cfg.stamps(m.id);
      if route == NotBridged then o.(ledger := o.ledger[m.id := cfg.now])
      else if !OneLine(m.thread) || stamp.fault == BeforeWrite then o.(raised := true)
      else
        var clone := Transport.Appended(o.clone, RecordFor(o.clone, m, route, stamp));
        if stamp.fault == AfterWrite then o.(clone := clone, raised := true)
        else o.(clone := clone, ledger := o.ledger[m.id := cfg.now], published := o.published + 1)
  }

  function PublishAll(o: Outbox, msgs: seq<Msg>, cfg: OutCfg): Outbox
    decreases |msgs|
  {
    if msgs == [] then o else PublishAll(PublishOne(o, msgs[0], cfg), msgs[1..], cfg)
  }

  function Pruned(ledger: Ledger, now: real): Ledger {
    map id | id in ledger && ledger[id] >= now - LEDGER_TTL_SECONDS :: ledger[id]
  }

  /** What pruning at `now` leaves: the entries no older than the ledger's TTL, as they were. */
  ghost predicate KeptYoung(before: Ledger, now: real, after: Ledger) {
    && (forall id :: id in after <==> id in before && now - before[id] <= LEDGER_TTL_SECONDS)
    && (forall id :: id in after ==> after[id] == before[id])
  }

  /** The TTL is fourteen days, and pruning drops what is older and nothing else. */
  lemma PrunedKeepsYoung(ledger: Ledger, now: real)
    ensures KeptYoung(ledger, now, Pruned(ledger, now)) && LEDGER_TTL_SECONDS == 14.0 * 24.0 * 3600.0
  {
  }

  // ----- inbound -----

  function IdsIn(msgs: seq<Msg>): set<string> {
    set m | m in msgs && m.id != "" :: m.id
  }

  /** `envelope_to_msg`. */
  function Delivered(m: Msg): Msg {
    m.(state := Pending, readAt := 0, via := Git)
  }

  function Without(names: seq<string>, author: string): seq<string> {
    if names == [] then []
    else if names[0] == author then Without(names[1..], author)
    else [names[0]] + Without(names[1..], author)
  }

  /** Never back to the record's own author. */
  function Recipients(env: Env, subs: map<string, seq<string>>): seq<string> {
    if env.chan.Some? && env.chan.value != "" then
      Without(if env.chan.value in subs then subs[env.chan.value] else [], env.from_)
    else if env.to.Some? && env.to.value != "" && env.to.value != env.from_ then [env.to.value]
    else []
  }

  predicate Deduplicated(inboxes: Inboxes, rcpt: string, m: Msg) {
    m.id != "" && m.id in IdsIn(InboxOf(inboxes, rcpt))
  }

  predicate Lands(inboxes: Inboxes, rcpt: string, m: Msg) {
    ValidId(rcpt) && !Deduplicated(inboxes, rcpt, m)
  }

  function DeliverOne(inboxes: Inboxes, rcpt: string, m: Msg): Inboxes {
    if Lands(inboxes, rcpt, m) then inboxes[rcpt := InboxOf(inboxes, rcpt) + [Delivered(m)]] else inboxes
  }

  function DeliverTo(inboxes: Inboxes, rcpts: seq<string>, m: Msg): Inboxes
    decreases |rcpts|
  {
    if rcpts == [] then inboxes else DeliverTo(DeliverOne(inboxes, rcpts[0], m), rcpts[1..], m)
  }

  function DeliverEnv(inboxes: Inboxes, env: Env, subs: map<string, seq<string>>): Inboxes {
    if env.body.Some? then DeliverTo(inboxes, Recipients(env, subs), env.body.value) else inboxes
  }

  function DeliverAll(inboxes: Inboxes, batch: seq<Env>, subs: map<string, seq<string>>): Inboxes
    decreases |batch|
  {
    if batch == [] then inboxes else DeliverAll(DeliverEnv(inboxes, batch[0], subs), batch[1..], subs)
  }

  // ----- an inbound pass that stops part-way -----

  /** One message for one inbox. */
  type Slot = (string, Msg)

  function SlotsFor(rcpts: seq<string>, m: Msg): (r: seq<Slot>)
    ensures |r| == |rcpts| && forall i :: 0 <= i < |r| ==> r[i] == (rcpts[i], m)
  {
    if rcpts == [] then [] else [(rcpts[0], m)] + SlotsFor(rcpts[1..], m)
  }

  function SlotsOf(env: Env, subs: map<string, seq<string>>): seq<Slot> {
    if env.body.Some? then SlotsFor(Recipients(env, subs), env.body.value) else []
  }

  /** What the loops of an inbound pass go through, in order. */
  function Slots(batch: seq<Env>, subs: map<string, seq<string>>): seq<Slot> {
    if batch == [] then [] else SlotsOf(batch[0], subs) + Slots(batch[1..], subs)
  }

  function DeliverSlots(inboxes: Inboxes, slots: seq<Slot>): Inboxes
    decreases |slots|
  {
    if slots == [] then inboxes else DeliverSlots(DeliverOne(inboxes, slots[0].0, slots[0].1), slots[1..])
  }

  lemma {:induction false} DeliverSlotsAppend(inboxes: Inboxes, a: seq<Slot>, b: seq<Slot>)
    ensures DeliverSlots(inboxes, a + b) == DeliverSlots(DeliverSlots(inboxes, a), b)
    decreases |a|
  {
    if a == [] {
      assert a + b == b;
    } else {
      assert (a + b)[1..] == a[1..] + b;
      DeliverSlotsAppend(DeliverOne(inboxes, a[0].0, a[0].1), a[1..], b);
    }
  }

  lemma {:induction false} DeliverSlotsTo(inboxes: Inboxes, rcpts: seq<string>, m: Msg)
    ensures DeliverSlots(inboxes, SlotsFor(rcpts, m)) == DeliverTo(inboxes, rcpts, m)
    decreases |rcpts|
  {
    if rcpts != [] {
      assert SlotsFor(rcpts, m)[1..] == SlotsFor(rcpts[1..], m);
      DeliverSlotsTo(DeliverOne(inboxes, rcpts[0], m), rcpts[1..], m);
    }
  }

  /** Going through all slots is the whole pass. */
  lemma {:induction false} DeliverSlotsAll(inboxes: Inboxes, batch: seq<Env>, subs: map<string, seq<string>>)
    ensures DeliverSlots(inboxes, Slots(batch, subs)) == DeliverAll(inboxes, batch, subs)
    decreases |batch|
  {
    if batch != [] {
      var next := DeliverEnv(inboxes, batch[0], subs);
      DeliverSlotsAppend(inboxes, SlotsOf(batch[0], subs), Slots(batch[1..], subs));
      if batch[0].body.Some? {
        DeliverSlotsTo(inboxes, Recipients(batch[0], subs), batch[0].body.value);
      }
      DeliverSlotsAll(next, batch[1..], subs);
    }
  }

  lemma {:induction false} SlotsAppend(a: seq<Env>, b: seq<Env>, subs: map<string, seq<string>>)
    ensures Slots(a + b, subs) == Slots(a, subs) + Slots(b, subs)
  {
    if a == [] {
      assert a + b == b;
    } else {
      assert (a + b)[1..] == a[1..] + b;
      SlotsAppend(a[1..], b, subs);
    }
  }

  /** Every slot carries a message of the batch. */
  lemma {:induction false} SlotsElements(batch: seq<Env>, subs: map<string, seq<string>>)
    ensures forall x :: x in Slots(batch, subs) ==> exists env :: env in batch && env.body == Some(x.1)
  {
    if batch != [] {
      SlotsElements(batch[1..], subs);
      forall x | x in Slots(batch, subs) ensures exists env :: env in batch && env.body == Some(x.1) {
        if x in SlotsOf(batch[0], subs) {
          assert batch[0] in batch;
        } else {
          var env :| env in batch[1..] && env.body == Some(x.1);
          assert env in batch;
        }
      }
    }
  }

  /** Which write of a pass fails, by inbox and message id. */
  type WriteFaults = (string, string) -> bool

  /** The pass comes to a write at place `p`, and it fails. */
  predicate FailsAt(inboxes: Inboxes, slots: seq<Slot>, p: nat, fails: WriteFaults)
    requires p < |slots|
  {
    Lands(DeliverSlots(inboxes, slots[..p]), slots[p].0, slots[p].1) && fails(slots[p].0, slots[p].1.id)
  }

  /** The pass stops at place `c`: at its end, or at its first failing write. */
  ghost predicate StopsAt(inboxes: Inboxes, slots: seq<Slot>, fails: WriteFaults, c: nat) {
    && c <= |slots| && (forall p: nat :: p < c ==> !FailsAt(inboxes, slots, p, fails))
    && (c < |slots| ==> FailsAt(inboxes, slots, c, fails))
  }

  lemma FailsInPrefix(inboxes: Inboxes, a: seq<Slot>, b: seq<Slot>, p: nat, fails: WriteFaults)
    requires p < |a|
    ensures FailsAt(inboxes, a + b, p, fails) <==> FailsAt(inboxes, a, p, fails)
  {
    assert (a + b)[..p] == a[..p];
  }

  lemma FailsInSuffix(inboxes: Inboxes, a: seq<Slot>, b: seq<Slot>, p: nat, fails: WriteFaults)
    requires p < |b|
    ensures FailsAt(inboxes, a + b, |a| + p, fails) <==> FailsAt(DeliverSlots(inboxes, a), b, p, fails)
  {
    assert (a + b)[..|a| + p] == a + b[..p];
    DeliverSlotsAppend(inboxes, a, b[..p]);
  }

  lemma StopsBefore(inboxes: Inboxes, a: seq<Slot>, b: seq<Slot>, fails: WriteFaults, c: nat)
    requires StopsAt(inboxes, a, fails, c) && c < |a|
    ensures StopsAt(inboxes, a + b, fails, c) && (a + b)[..c] == a[..c]
  {
    forall p: nat | p <= c ensures FailsAt(inboxes, a + b, p, fails) <==> FailsAt(inboxes, a, p, fails) {
      FailsInPrefix(inboxes, a, b, p, fails);
    }
  }

  lemma NoFailure(inboxes: Inboxes, a: seq<Slot>, b: seq<Slot>, fails: WriteFaults, c: nat, p: nat)
    requires StopsAt(inboxes, a, fails, |a|) && StopsAt(DeliverSlots(inboxes, a), b, fails, c) && p < |a| + c
    ensures !FailsAt(inboxes, a + b, p, fails)
  {
    if p < |a| {
      FailsInPrefix(inboxes, a, b, p, fails);
    } else {
      FailsInSuffix(inboxes, a, b, p - |a|, fails);
    }
  }

  lemma StopsAfter(inboxes: Inboxes, a: seq<Slot>, b: seq<Slot>, fails: WriteFaults, c: nat)
    requires StopsAt(inboxes, a, fails, |a|) && StopsAt(DeliverSlots(inboxes, a), b, fails, c)
    ensures StopsAt(inboxes, a + b, fails, |a| + c)
  {
    forall p: nat | p < |a| + c ensures !FailsAt(inboxes, a + b, p, fails) {
      NoFailure(inboxes, a, b, fails, c, p);
    }
    if c < |b| {
      FailsInSuffix(inboxes, a, b, c, fails);
    }
  }

  lemma CutAfter(inboxes: Inboxes, a: seq<Slot>, b: seq<Slot>, c: nat)
    requires c <= |b|
    ensures DeliverSlots(inboxes, (a + b)[..|a| + c]) == DeliverSlots(DeliverSlots(inboxes, a), b[..c])
  {
    assert (a + b)[..|a| + c] == a + b[..c];
    DeliverSlotsAppend(inboxes, a, b[..c]);
  }

  /** No write failed before place `k`, and this is what the pass has made of the inboxes. */
  ghost predicate UpTo(before: Inboxes, slots: seq<Slot>, fails: WriteFaults, k: nat, inboxes: Inboxes) {
    && k <= |slots| && (forall p: nat :: p < k ==> !FailsAt(before, slots, p, fails))
    && inboxes == DeliverSlots(before, slots[..k])
  }

  /** Going through one more slot. */
  lemma SlotStep(before: Inboxes, slots: seq<Slot>, fails: WriteFaults, k: nat, inboxes: Inboxes)
    requires k < |slots| && UpTo(before, slots, fails, k, inboxes)
    ensures
      var x := slots[k];
      if Lands(inboxes, x.0, x.1) && fails(x.0, x.1.id) then StopsAt(before, slots, fails, k)
      else UpTo(before, slots, fails, k + 1, DeliverOne(inboxes, x.0, x.1))
  {
    assert slots[..k + 1] == slots[..k] + [slots[k]];
    DeliverSlotsAppend(before, slots[..k], [slots[k]]);
    assert [slots[k]][1..] == [];
  }

  /** After `done` the pass goes through all of `mine`, ... */
  lemma GoesThrough(before: Inboxes, done: seq<Slot>, mine: seq<Slot>, next: seq<Slot>, fails: WriteFaults,
                    inboxes: Inboxes)
    requires UpTo(before, done, fails, |done|, inboxes) && StopsAt(inboxes, mine, fails, |mine|)
    requires next == done + mine
    ensures UpTo(before, next, fails, |next|, DeliverSlots(inboxes, mine[..|mine|]))
  {
    assert done[..|done|] == done;
    StopsAfter(before, done, mine, fails, |mine|);
    CutAfter(before, done, mine, |mine|);
  }

  /** ... or stops inside it. */
  lemma StopsInside(before: Inboxes, done: seq<Slot>, mine: seq<Slot>, rest: seq<Slot>, all: seq<Slot>,
                    fails: WriteFaults, k: nat, inboxes: Inboxes)
    requires UpTo(before, done, fails, |done|, inboxes) && StopsAt(inboxes, mine, fails, k) && k < |mine|
    requires all == done + mine + rest
    ensures StopsAt(before, all, fails, |done| + k)
    ensures DeliverSlots(inboxes, mine[..k]) == DeliverSlots(before, all[..|done| + k])
  {
    assert done[..|done|] == done;
    StopsAfter(before, done, mine, fails, k);
    CutAfter(before, done, mine, k);
    StopsBefore(before, done + mine, rest, fails, |done| + k);
  }

  // ----- what one outbound pass guarantees -----

  /** A pass only appends to lanes. */
  ghost predicate Grown(before: Lanes, after: Lanes) {
    forall lane :: LinesOf(before, lane) <= LinesOf(after, lane)
  }

  lemma {:induction false} PublishAllGrows(o: Outbox, msgs: seq<Msg>, cfg: OutCfg)
    ensures Grown(o.clone, PublishAll(o, msgs, cfg).clone)
    ensures forall id :: id in o.ledger ==> id in PublishAll(o, msgs, cfg).ledger
    ensures PublishAll(o, msgs, cfg).published >= o.published
    ensures Numbered(o.clone) ==> Numbered(PublishAll(o, msgs, cfg).clone)
    decreases |msgs|
  {
    if msgs != [] {
      var o1 := PublishOne(o, msgs[0], cfg);
      PublishAllGrows(o1, msgs[1..], cfg);
      var route := RouteOf(msgs[0], cfg.live, cfg.mirrorAll);
      if o1.clone != o.clone && Numbered(o.clone) {
        var env := RecordFor(o.clone, msgs[0], route, cfg.stamps(msgs[0].id));
        NumberedAppend(o.clone, LaneOf(env), env);
      }
    }
  }

  /** Without a raise every mirrored message is ledgered, published or not. */
  lemma {:induction false} PublishAllLedgers(o: Outbox, msgs: seq<Msg>, cfg: OutCfg)
    requires !PublishAll(o, msgs, cfg).raised
    ensures forall m :: m in msgs && m.id != "" ==> m.id in PublishAll(o, msgs, cfg).ledger
    decreases |msgs|
  {
    if msgs != [] {
      var o1 := PublishOne(o, msgs[0], cfg);
      PublishAllLedgers(o1, msgs[1..], cfg);
      if o1.raised {
        RaisedStays(o1, msgs[1..], cfg);
      }
      PublishAllGrows(o1, msgs[1..], cfg);
    }
  }

  /** A pass enters what it handles with its own time, and leaves every earlier entry. */
  lemma {:induction false} PublishAllStamps(o: Outbox, msgs: seq<Msg>, cfg: OutCfg)
    ensures forall id :: id in PublishAll(o, msgs, cfg).ledger ==>
      PublishAll(o, msgs, cfg).ledger[id] == if id in o.ledger then o.ledger[id] else cfg.now
    decreases |msgs|
  {
    if msgs != [] {
      PublishAllStamps(PublishOne(o, msgs[0], cfg), msgs[1..], cfg);
      PublishAllGrows(o, [msgs[0]], cfg);
      OneTurn(o, msgs[0], cfg);
    }
  }

  lemma {:induction false} RaisedStays(o: Outbox, msgs: seq<Msg>, cfg: OutCfg)
    requires o.raised
    ensures PublishAll(o, msgs, cfg) == o
    decreases |msgs|
  {
    if msgs != [] {
      RaisedStays(o, msgs[1..], cfg);
    }
  }

  // ----- which ids one pass adds a record for -----

  /** Line `i` of a lane carries message `id`. */
  predicate InClone(clone: Lanes, lane: Lane, i: nat, id: string) {
    && i < |LinesOf(clone, lane)| && LinesOf(clone, lane)[i].Record?
    && LinesOf(clone, lane)[i].env.body.Some? && LinesOf(clone, lane)[i].env.body.value.id == id
  }

  /** Going from `before` to `after`, line `i` of a lane was added and carries `id`. */
  predicate Adds(before: Lanes, after: Lanes, lane: Lane, i: nat, id: string) {
    |LinesOf(before, lane)| <= i && InClone(after, lane, i, id)
  }

  /** The message's turn writes a record. */
  predicate Writes(o: Outbox, m: Msg, cfg: OutCfg) {
    && !o.raised && m.id != "" && m.id !in o.ledger && RouteOf(m, cfg.live, cfg.mirrorAll) != NotBridged
    && OneLine(m.thread) && cfg.stamps(m.id).fault != BeforeWrite
  }

  lemma TurnAdds(o: Outbox, m: Msg, cfg: OutCfg, lane: Lane, i: nat, id: string)
    ensures Adds(o.clone, PublishOne(o, m, cfg).clone, lane, i, id) <==>
      && Writes(o, m, cfg) && id == m.id && i == |LinesOf(o.clone, lane)|
      && lane == LaneOf(RecordFor(o.clone, m, RouteOf(m, cfg.live, cfg.mirrorAll), cfg.stamps(m.id)))
  {
  }

  lemma AddsInTwo(o: Lanes, o1: Lanes, o2: Lanes, lane: Lane, i: nat, id: string)
    requires LinesOf(o, lane) <= LinesOf(o1, lane) <= LinesOf(o2, lane)
    ensures Adds(o, o2, lane, i, id) <==> Adds(o, o1, lane, i, id) || Adds(o1, o2, lane, i, id)
  {
  }

  /** A ledgered id gets no record, nor does any id after a raise. */
  lemma {:induction false} NothingAdded(o: Outbox, msgs: seq<Msg>, cfg: OutCfg, lane: Lane, i: nat, id: string)
    requires o.raised || id in o.ledger || id == ""
    ensures !Adds(o.clone, PublishAll(o, msgs, cfg).clone, lane, i, id)
    decreases |msgs|
  {
    if msgs != [] {
      var o1 := PublishOne(o, msgs[0], cfg);
      TurnAdds(o, msgs[0], cfg, lane, i, id);
      PublishAllGrows(PublishOne(o, msgs[0], cfg), msgs[1..], cfg);
      PublishAllGrows(o, [msgs[0]], cfg);
      OneTurn(o, msgs[0], cfg);
      AddsInTwo(o.clone, o1.clone, PublishAll(o, msgs, cfg).clone, lane, i, id);
      NothingAdded(o1, msgs[1..], cfg, lane, i, id);
    }
  }

  lemma OneTurn(o: Outbox, m: Msg, cfg: OutCfg)
    ensures PublishAll(o, [m], cfg) == PublishOne(o, m, cfg)
  {
    assert [m][1..] == [];
  }

  /** The first message scanned with this id is at `k`. */
  predicate FirstAt(msgs: seq<Msg>, id: string, k: nat) {
    k < |msgs| && msgs[k].id == id && forall j :: 0 <= j < k ==> msgs[j].id != id
  }

  /** The pass gets to position `k`, and the message there is written. */
  predicate WritesAt(o: Outbox, msgs: seq<Msg>, cfg: OutCfg, k: nat)
    requires k < |msgs|
  {
    Writes(PublishAll(o, msgs[..k], cfg), msgs[k], cfg)
  }

  /** The pass writes a record for `id`: not ledgered, and the first message scanned with it
      is for the bus and is reached and written. */
  ghost predicate Publishes(o: Outbox, msgs: seq<Msg>, cfg: OutCfg, id: string) {
    exists k: nat :: FirstAt(msgs, id, k) && WritesAt(o, msgs, cfg, k)
  }

  lemma PublishesStep(o: Outbox, msgs: seq<Msg>, cfg: OutCfg, id: string)
    requires msgs != [] && msgs[0].id != id
    ensures Publishes(o, msgs, cfg, id) <==> Publishes(PublishOne(o, msgs[0], cfg), msgs[1..], cfg, id)
  {
    var o1, rest := PublishOne(o, msgs[0], cfg), msgs[1..];
    forall k: nat | k < |rest| ensures FirstAt(msgs, id, k + 1) <==> FirstAt(rest, id, k)
      ensures WritesAt(o, msgs, cfg, k + 1) <==> WritesAt(o1, rest, cfg, k)
    {
      assert msgs[..k + 1][1..] == rest[..k];
      forall j | 0 <= j < k ensures rest[j] == msgs[j + 1] {
      }
      assert FirstAt(rest, id, k) ==> forall j :: 0 <= j < k + 1 ==> msgs[j].id != id by {
        forall j | 0 < j < k + 1 ensures msgs[j] == rest[j - 1] {
        }
      }
    }
    if Publishes(o, msgs, cfg, id) {
      var k: nat :| FirstAt(msgs, id, k) && WritesAt(o, msgs, cfg, k);
      assert FirstAt(rest, id, k - 1) && WritesAt(o1, rest, cfg, k - 1);
    }
    if Publishes(o1, rest, cfg, id) {
      var k: nat :| FirstAt(rest, id, k) && WritesAt(o1, rest, cfg, k);
      assert FirstAt(msgs, id, k + 1) && WritesAt(o, msgs, cfg, k + 1);
    }
  }

  lemma PublishesFirst(o: Outbox, msgs: seq<Msg>, cfg: OutCfg)
    requires msgs != []
    ensures Publishes(o, msgs, cfg, msgs[0].id) <==> Writes(o, msgs[0], cfg)
  {
    assert msgs[..0] == [];
    if Writes(o, msgs[0], cfg) {
      assert FirstAt(msgs, msgs[0].id, 0) && WritesAt(o, msgs, cfg, 0);
    }
  }

  /** What a pass adds is what its first turn adds and what the rest of it adds. */
  lemma PassSplits(o: Outbox, msgs: seq<Msg>, cfg: OutCfg, lane: Lane, i: nat, id: string)
    requires msgs != []
    ensures
      var o1, end := PublishOne(o, msgs[0], cfg), PublishAll(o, msgs, cfg);
      Adds(o.clone, end.clone, lane, i, id) <==>
        Adds(o.clone, o1.clone, lane, i, id) || Adds(o1.clone, end.clone, lane, i, id)
  {
    PublishAllGrows(PublishOne(o, msgs[0], cfg), msgs[1..], cfg);
    PublishAllGrows(o, [msgs[0]], cfg);
    OneTurn(o, msgs[0], cfg);
    AddsInTwo(o.clone, PublishOne(o, msgs[0], cfg).clone, PublishAll(o, msgs, cfg).clone, lane, i, id);
  }

  /** The lane a message's turn writes to. */
  function LaneOfTurn(o: Outbox, m: Msg, cfg: OutCfg): Lane
    requires Writes(o, m, cfg)
  {
    LaneOf(RecordFor(o.clone, m, RouteOf(m, cfg.live, cfg.mirrorAll), cfg.stamps(m.id)))
  }

  /** For the id of the first message, only that message's turn can add a record. */
  lemma FirstAdds(o: Outbox, msgs: seq<Msg>, cfg: OutCfg, lane: Lane, i: nat)
    requires msgs != []
    ensures Adds(o.clone, PublishAll(o, msgs, cfg).clone, lane, i, msgs[0].id) <==>
      Writes(o, msgs[0], cfg) && lane == LaneOfTurn(o, msgs[0], cfg) && i == |LinesOf(o.clone, lane)|
  {
    PassSplits(o, msgs, cfg, lane, i, msgs[0].id);
    TurnAdds(o, msgs[0], cfg, lane, i, msgs[0].id);
    NothingAdded(PublishOne(o, msgs[0], cfg), msgs[1..], cfg, lane, i, msgs[0].id);
  }

  /** A pass adds a record for an id exactly when it publishes it, and then only one. */
  lemma {:induction false} PassAddsIff(o: Outbox, msgs: seq<Msg>, cfg: OutCfg, id: string)
    ensures
      var end := PublishAll(o, msgs, cfg).clone;
      && ((exists lane, i: nat :: Adds(o.clone, end, lane, i, id)) <==> Publishes(o, msgs, cfg, id))
      && forall lane, i: nat, lane', i': nat ::
           Adds(o.clone, end, lane, i, id) && Adds(o.clone, end, lane', i', id) ==> lane == lane' && i == i'
    decreases |msgs|
  {
    var end := PublishAll(o, msgs, cfg).clone;
    if msgs == [] {
    } else if msgs[0].id == id {
      PublishesFirst(o, msgs, cfg);
      forall lane, i: nat | Adds(o.clone, end, lane, i, id)
        ensures Writes(o, msgs[0], cfg) && lane == LaneOfTurn(o, msgs[0], cfg) && i == |LinesOf(o.clone, lane)|
      {
        FirstAdds(o, msgs, cfg, lane, i);
      }
      if Writes(o, msgs[0], cfg) {
        var lane := LaneOfTurn(o, msgs[0], cfg);
        FirstAdds(o, msgs, cfg, lane, |LinesOf(o.clone, lane)|);
        assert Adds(o.clone, end, lane, |LinesOf(o.clone, lane)|, id);
      }
    } else {
      var o1 := PublishOne(o, msgs[0], cfg);
      PublishesStep(o, msgs, cfg, id);
      PassAddsIff(o1, msgs[1..], cfg, id);
      assert end == PublishAll(o1, msgs[1..], cfg).clone;
      forall lane, i: nat | Adds(o.clone, end, lane, i, id) ensures Adds(o1.clone, end, lane, i, id) {
        PassSplits(o, msgs, cfg, lane, i, id);
        TurnAdds(o, msgs[0], cfg, lane, i, id);
      }
      if Publishes(o1, msgs[1..], cfg, id) {
        var lane, i: nat :| Adds(o1.clone, end, lane, i, id);
        PassSplits(o, msgs, cfg, lane, i, id);
        assert Adds(o.clone, end, lane, i, id);
      } else {
        assert forall lane, i: nat :: !Adds(o1.clone, end, lane, i, id);
      }
    }
  }

  /** Line `i` is the record of `m`, stamped as drawn and numbered by its lane. */
  predicate RecordAt(lines: seq<Line>, i: nat, m: Msg, stamp: Stamp) {
    && i < |lines| && lines[i].Record? && Envelope(lines[i].env, m) && lines[i].env.id == stamp.recId
    && lines[i].env.ts == stamp.now && lines[i].env.seqNo == NextSeq(lines[..i])
  }

  lemma TurnRecords(o: Outbox, m: Msg, cfg: OutCfg, lane: Lane, i: nat)
    requires Adds(o.clone, PublishOne(o, m, cfg).clone, lane, i, m.id)
    ensures BusBound(m, cfg.live, cfg.mirrorAll) && OneLine(m.thread)
    ensures RecordAt(LinesOf(PublishOne(o, m, cfg).clone, lane), i, m, cfg.stamps(m.id))
  {
    TurnAdds(o, m, cfg, lane, i, m.id);
    RoutedIff(m, cfg.live, cfg.mirrorAll);
    var lines := LinesOf(PublishOne(o, m, cfg).clone, lane);
    assert lines[..i] == LinesOf(o.clone, lane);
  }

  /** Whatever a pass adds, raise or not, is the record of a scanned message for the bus. */
  lemma {:induction false} AddedRecord(o: Outbox, msgs: seq<Msg>, cfg: OutCfg, lane: Lane, i: nat, id: string)
      returns (m: Msg)
    requires Adds(o.clone, PublishAll(o, msgs, cfg).clone, lane, i, id)
    ensures m in msgs && m.id == id && BusBound(m, cfg.live, cfg.mirrorAll) && OneLine(m.thread)
    ensures RecordAt(LinesOf(PublishAll(o, msgs, cfg).clone, lane), i, m, cfg.stamps(id))
    decreases |msgs|
  {
    var o1, end := PublishOne(o, msgs[0], cfg), PublishAll(o, msgs, cfg);
    PassSplits(o, msgs, cfg, lane, i, id);
    if Adds(o.clone, o1.clone, lane, i, id) {
      m := msgs[0];
      TurnAdds(o, m, cfg, lane, i, id);
      TurnRecords(o, m, cfg, lane, i);
      PublishAllGrows(o1, msgs[1..], cfg);
      assert LinesOf(o1.clone, lane) <= LinesOf(end.clone, lane);
      assert LinesOf(end.clone, lane)[..i] == LinesOf(o1.clone, lane)[..i];
    } else {
      m := AddedRecord(o1, msgs[1..], cfg, lane, i, id);
    }
  }

  /** Without a raise or a failing write: the pass publishes an id exactly when it is not
      ledgered and the first message scanned with it is for the bus. */
  lemma CleanPassPublishesIff(o: Outbox, msgs: seq<Msg>, cfg: OutCfg, id: string)
    requires !PublishAll(o, msgs, cfg).raised
    ensures Publishes(o, msgs, cfg, id) <==>
      id != "" && id !in o.ledger &&
      exists k: nat :: FirstAt(msgs, id, k) && BusBound(msgs[k], cfg.live, cfg.mirrorAll)
  {
    forall k: nat | FirstAt(msgs, id, k)
      ensures WritesAt(o, msgs, cfg, k) <==>
        id != "" && id !in o.ledger && BusBound(msgs[k], cfg.live, cfg.mirrorAll)
    {
      RoutedIff(msgs[k], cfg.live, cfg.mirrorAll);
      assert msgs == msgs[..k] + [msgs[k]] + msgs[k + 1..];
      PublishAllAppend(o, msgs[..k] + [msgs[k]], msgs[k + 1..], cfg);
      PublishAllAppend(o, msgs[..k], [msgs[k]], cfg);
      var at := PublishAll(o, msgs[..k], cfg);
      OneTurn(at, msgs[k], cfg);
      if PublishOne(at, msgs[k], cfg).raised {
        RaisedStays(PublishOne(at, msgs[k], cfg), msgs[k + 1..], cfg);
      }
      OthersNotLedgered(o, msgs[..k], cfg, id);
    }
  }

  lemma {:induction false} PublishAllAppend(o: Outbox, a: seq<Msg>, b: seq<Msg>, cfg: OutCfg)
    ensures PublishAll(o, a + b, cfg) == PublishAll(PublishAll(o, a, cfg), b, cfg)
    decreases |a|
  {
    if a == [] {
      assert a + b == b;
    } else {
      assert (a + b)[1..] == a[1..] + b;
      PublishAllAppend(PublishOne(o, a[0], cfg), a[1..], b, cfg);
    }
  }

  /** Messages of other ids leave an id's ledger entry as it was. */
  lemma {:induction false} OthersNotLedgered(o: Outbox, msgs: seq<Msg>, cfg: OutCfg, id: string)
    requires forall m :: m in msgs ==> m.id != id
    ensures id in PublishAll(o, msgs, cfg).ledger <==> id in o.ledger
    decreases |msgs|
  {
    if msgs != [] {
      assert msgs[0] in msgs;
      OthersNotLedgered(PublishOne(o, msgs[0], cfg), msgs[1..], cfg, id);
    }
  }

  lemma {:induction false} LocalMessagesElements(inboxes: Inboxes, names: seq<string>)
    ensures forall m :: m in LocalMessages(inboxes, names) <==>
      Mirrored(m) && exists k :: 0 <= k < |names| && m in InboxOf(inboxes, names[k])
  {
    if names != [] {
      var p := MirroredOnly();
      FilterElements(p, InboxOf(inboxes, names[0]));
      LocalMessagesElements(inboxes, names[1..]);
      forall m ensures m in LocalMessages(inboxes, names) <==>
        Mirrored(m) && exists k :: 0 <= k < |names| && m in InboxOf(inboxes, names[k])
      {
        if m in Filter(p, InboxOf(inboxes, names[0])) {
          assert m in InboxOf(inboxes, names[0]);
        }
        if m in LocalMessages(inboxes, names[1..]) {
          var k :| 0 <= k < |names[1..]| && m in InboxOf(inboxes, names[1..][k]);
          assert m in InboxOf(inboxes, names[k + 1]);
        }
        if Mirrored(m) && exists k :: 0 <= k < |names| && m in InboxOf(inboxes, names[k]) {
          var k :| 0 <= k < |names| && m in InboxOf(inboxes, names[k]);
          if k > 0 {
            assert m in InboxOf(inboxes, names[1..][k - 1]);
          }
        }
      }
    }
  }

  /** A listing of the inbox directories. */
  ghost predicate Names(inboxes: Inboxes, names: seq<string>) {
    && Distinct(names)
    && forall n :: n in names <==> n in inboxes
  }
}
