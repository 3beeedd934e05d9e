/** From `send_message` on one host to the inbox on another: a direct message to an agent
    that is not live at home (dispatch_fs.py, git_bridge.py, git_transport.py). */
module DirectMail {
  import opened Ids
  import opened Messages
  import opened Order
  import opened Lanes
  import opened Replication
  import opened Bus
  import opened LoopFreedom
  import Delivery
  import Resolvers

  // ----- the ledgers only hold ids of messages that exist -----

  ghost predicate LedgersBorn(g: Bus) {
    forall h, id :: h in g.hosts && (id in g.hosts[h].ledger || id in g.hosts[h].saved) ==> id in g.born
  }

  lemma {:induction false} PublishAllAdds(o: Outbox, msgs: seq<Msg>, cfg: OutCfg, id: string)
    requires id in PublishAll(o, msgs, cfg).ledger
    ensures id in o.ledger || exists m :: m in msgs && m.id == id
    decreases |msgs|
  {
    if msgs != [] && id !in o.ledger {
      var o1 := PublishOne(o, msgs[0], cfg);
      if id in o1.ledger {
        assert msgs[0].id == id;
      } else {
        PublishAllAdds(o1, msgs[1..], cfg, id);
        var m :| m in msgs[1..] && m.id == id;
        assert m in msgs;
      }
    }
  }

  lemma OutboundLedgersBorn(g: Bus, h: nat, names: seq<string>, cfg: OutCfg, id: string)
    requires Sound(g) && LedgersBorn(g) && h in g.hosts && Names(g.hosts[h].inboxes, names)
    requires id in Out(g.hosts[h], names, cfg).ledger
    ensures id in g.born
  {
    var host := g.hosts[h];
    var msgs := LocalMessages(host.inboxes, names);
    PublishAllAdds(Outbox(host.lanes, host.ledger, 0, false), msgs, cfg, id);
    if id !in host.ledger {
      var m :| m in msgs && m.id == id;
      LocalMessagesElements(host.inboxes, names);
      var k :| 0 <= k < |names| && m in InboxOf(host.inboxes, names[k]);
      assert Placed(host.inboxes, m);
      assert GoodFile(g, h, m);
    }
  }

  lemma StepKeepsLedgers(g: Bus, s: Step)
    requires Sound(g) && LedgersBorn(g) && Enabled(g, s)
    ensures LedgersBorn(Next(g, s))
  {
    var g' := Next(g, s);
    forall h, id | h in g'.hosts && (id in g'.hosts[h].ledger || id in g'.hosts[h].saved) ensures id in g'.born {
      if s.Outbound? && h == s.h && id !in g.hosts[h].saved {
        OutboundLedgersBorn(g, h, s.names, s.cfg, id);
      }
    }
  }

  lemma {:induction false} RunKeepsLedgers(g: Bus, run: seq<Step>, g': Bus)
    requires Sound(g) && LedgersBorn(g) && Reaches(g, run, g')
    ensures Sound(g') && LedgersBorn(g')
    decreases |run|
  {
    if run != [] {
      StepKeepsSound(g, run[0]);
      StepKeepsLedgers(g, run[0]);
      RunKeepsLedgers(Next(g, run[0]), run[1..], g');
    }
  }

  // ----- sending -----

  lemma WriteOneCopy(inboxes: Inboxes, m: Msg, to: string)
    ensures WriteCopies(inboxes, m, [(to, to)]) == inboxes[to := InboxOf(inboxes, to) + [m.(to := to)]]
  {
    var next := inboxes[to := InboxOf(inboxes, to) + [m.(to := to)]];
    assert WriteCopies(next, m, [(to, to)][1..]) == next;
  }

  /** A send that writes one copy leaves a message the next outbound pass will publish. */
  lemma SendIsNew(g: Bus, a: nat, m: Msg, to: string, cfg: OutCfg)
    requires Sound(g) && LedgersBorn(g) && Enabled(g, Step.Send(a, m, [(to, to)]))
    requires ValidId(m.from_) && ValidId(to) && to != m.from_ && to != "all" && to !in cfg.live
    ensures Delivery.NewDirect(Next(g, Step.Send(a, m, [(to, to)])), a, m.(to := to), cfg)
  {
    var g' := Next(g, Step.Send(a, m, [(to, to)]));
    var before, after, copy := g.hosts[a].inboxes, g'.hosts[a].inboxes, m.(to := to);
    WriteOneCopy(before, m, to);
    assert after == before[to := InboxOf(before, to) + [copy]];
    assert copy in after[to];
    forall c | Placed(before, c) ensures c.id != m.id {
      assert GoodFile(g, a, c);
    }
    forall c | Placed(after, c) && c.id == m.id ensures c == copy {
      assert Placed(before, c) || c == copy;
    }
  }

  function Home(remote: set<string>, target: string): string {
    if target in remote then target else DurableNick(target)
  }

  /** The target and its nick have no live session here. */
  predicate Offline(live: seq<string>, target: string) {
    && target !in live && Filter(Resolvers.SessionsOf(target), live) == []
    && Filter(Resolvers.SessionsOf(DurableNick(target)), live) == []
  }

  /** A send to an offline target writes one copy. */
  lemma OfflineSendWritesOnce(m: Msg, live: seq<string>, remote: set<string>, subscribers: string -> seq<string>)
    requires ValidId(m.to) && m.to != "all" && Offline(live, m.to)
    ensures ValidId(Home(remote, m.to))
    ensures Resolvers.CopiesFor(m.to, m.from_, live, remote, [], subscribers) ==
      Resolvers.Copies([(Home(remote, m.to), Home(remote, m.to))])
  {
    var to := Home(remote, m.to);
    Resolvers.OfflineResolvesOnce(live, remote, m.to);
    Resolvers.AddressedToItself([to]);
    assert Resolvers.Addressed([to], None) == [(to, to)];
    DurableNickValid(m.to);
  }

  /** The state after such a send, from any reachable one. */
  lemma SendFromReachable(g0: Bus, run: seq<Step>, g: Bus, a: nat, m: Msg, to: string, cfg: OutCfg)
    requires Initial(g0) && Reaches(g0, run, g) && Homed(g) && Enabled(g, Step.Send(a, m, [(to, to)]))
    requires ValidId(m.from_) && ValidId(to) && to != m.from_ && to != "all" && to !in cfg.live
    ensures Sound(g) && Sound(Next(g, Step.Send(a, m, [(to, to)])))
    ensures Delivery.NewDirect(Next(g, Step.Send(a, m, [(to, to)])), a, m.(to := to), cfg)
  {
    InitialSound(g0);
    RunKeepsLedgers(g0, run, g);
    StepKeepsSound(g, Step.Send(a, m, [(to, to)]));
    SendIsNew(g, a, m, to, cfg);
  }

  // ----- whole ticks -----

  /** What one tick of a host's bridge draws from outside, when a fetch is due in it. */
  datatype Pass = Pass(names: seq<string>, cfg: OutCfg, incoming: Lanes, files: seq<Lane>,
                       subs: map<string, seq<string>>)

  /** One whole tick: the outbound pass, the fetch, the inbound pass. */
  function TickRun(h: nat, p: Pass): seq<Step> {
    [Step.Outbound(h, p.names, p.cfg), Step.Fetch(h, p.incoming), Step.Inbound(h, p.files, p.subs)]
  }

  function TwoTicks(a: nat, pa: Pass, b: nat, pb: Pass): seq<Step> { TickRun(a, pa) + TickRun(b, pb) }

  /** Between the sender's outbound pass and the receiver's inbound pass. */
  function Between(a: nat, pa: Pass, b: nat, pb: Pass): seq<Step> { TickRun(a, pa)[1..] + TickRun(b, pb)[..2] }

  lemma {:induction false} SplitRun(g: Bus, run: seq<Step>, more: seq<Step>, g': Bus) returns (g1: Bus)
    requires Sound(g) && Reaches(g, run + more, g')
    ensures Sound(g1) && Reaches(g, run, g1) && Reaches(g1, more, g')
    ensures OrderlyRun(g, run + more, g') <==> OrderlyRun(g, run, g1) && OrderlyRun(g1, more, g')
    decreases |run|
  {
    if run == [] {
      assert run + more == more;
      g1 := g;
    } else {
      assert (run + more)[1..] == run[1..] + more;
      StepKeepsSound(g, run[0]);
      g1 := SplitRun(Next(g, run[0]), run[1..], more, g');
    }
  }

  lemma FirstAndLast(g: Bus, s: Step, run: seq<Step>, last: Step, g': Bus) returns (g2: Bus)
    requires Sound(g) && Reaches(g, [s] + (run + [last]), g') && OrderlyRun(g, [s] + (run + [last]), g')
    ensures Enabled(g, s) && Orderly(g, s) && Sound(Next(g, s))
    ensures Reaches(Next(g, s), run, g2) && OrderlyRun(Next(g, s), run, g2)
    ensures Sound(g2) && Enabled(g2, last) && g' == Next(g2, last)
  {
    assert ([s] + (run + [last]))[1..] == run + [last];
    StepKeepsSound(g, s);
    g2 := SplitRun(Next(g, s), run, [last], g');
    assert [last][1..] == [];
  }

  lemma SplitTicks(a: nat, pa: Pass, b: nat, pb: Pass)
    requires a != b
    ensures
      var out, last := Step.Outbound(a, pa.names, pa.cfg), Step.Inbound(b, pb.files, pb.subs);
      TwoTicks(a, pa, b, pb) == [out] + (Between(a, pa, b, pb) + [last])
    ensures forall s :: s in Between(a, pa, b, pb) ==> !Delivery.Reads(s, b)
  {
  }

  /** Without an inbound pass of its own a host has read no further. */
  lemma NotReadBetween(g: Bus, s: Step, run: seq<Step>, g2: Bus, b: nat, lane: Lane)
    requires Sound(g) && Enabled(g, s) && !Delivery.Reads(s, b) && b in g.hosts && Homed(Next(g, s)) &&
      Reaches(Next(g, s), run, g2)
    requires forall t :: t in run ==> !Delivery.Reads(t, b)
    ensures Sound(g2) && b in g2.hosts && Consumed(g2.hosts[b].cursor, lane) <= |AuthorLane(g, lane)|
  {
    StepKeepsSound(g, s);
    Delivery.CursorAdvances(g, s, b, lane);
    Delivery.CursorStays(Next(g, s), run, g2, b);
    assert LinesOf(g.hosts[b].lanes, lane) <= AuthorLane(g, lane);
  }

  /** A tick at the sender's host and then a tick at the receiver's: the message is there,
      once, in the inbox it names. */
  lemma TwoTicksDeliver(g: Bus, a: nat, pa: Pass, b: nat, pb: Pass, m: Msg, g': Bus)
    requires Inv(g) && a in g.hosts && b in g.hosts && a != b && Delivery.NewDirect(g, a, m, pa.cfg)
    requires !Out(g.hosts[a], pa.names, pa.cfg).raised
    requires Reaches(g, TwoTicks(a, pa, b, pb), g') && OrderlyRun(g, TwoTicks(a, pa, b, pb), g')
    requires Homed(g') && b in g'.hosts && LinesOf(g'.hosts[b].lanes, Dm(m.from_)) == AuthorLane(g', Dm(m.from_))
    ensures Delivery.Copies(g'.hosts[b].inboxes, m.to, m.id) == [m.(state := Pending, readAt := 0, via := Git)]
    ensures forall n :: n != m.to ==> Delivery.Copies(g'.hosts[b].inboxes, n, m.id) == []
  {
    var run := Between(a, pa, b, pb);
    SplitTicks(a, pa, b, pb);
    var g2 := FirstAndLast(g, Step.Outbound(a, pa.names, pa.cfg), run, Step.Inbound(b, pb.files, pb.subs), g');
    NotReadBetween(g, Step.Outbound(a, pa.names, pa.cfg), run, g2, b, Dm(m.from_));
    SameAfterInbound(g2, b, pb.files, pb.subs, Dm(m.from_));
    Delivery.EndToEnd(g, a, b, pa.names, pa.cfg, m, run, g2, pb.files, pb.subs);
  }

  lemma SameAfterInbound(g: Bus, b: nat, files: seq<Lane>, subs: map<string, seq<string>>, lane: Lane)
    requires Homed(g) && Enabled(g, Step.Inbound(b, files, subs))
    ensures
      var g' := Next(g, Step.Inbound(b, files, subs));
      && Homed(g') && AuthorLane(g', lane) == AuthorLane(g, lane)
      && LinesOf(g'.hosts[b].lanes, lane) == LinesOf(g.hosts[b].lanes, lane)
  {
  }

  lemma {:induction false} SomeListing<T>(all: set<T>) returns (files: seq<T>)
    ensures Distinct(files) && forall x :: x in files <==> x in all
    decreases |all|
  {
    files := [];
    if all != {} {
      var x :| x in all;
      var rest := SomeListing(all - {x});
      files := [x] + rest;
    }
  }

  lemma FetchedOneLane(lanes: Lanes, at: Lane, more: seq<Line>, lane: Lane)
    ensures LinesOf(Fetched(lanes, map[at := more]), lane) == LinesOf(lanes, lane) + if lane == at then more else []
  {
  }

  /** What a host is missing of one author's lane. */
  ghost function Missing(g: Bus, b: nat, at: Lane): Lanes
    requires Homed(g) && b in g.hosts && LinesOf(g.hosts[b].lanes, at) <= AuthorLane(g, at)
  {
    map[at := AuthorLane(g, at)[|LinesOf(g.hosts[b].lanes, at)|..]]
  }

  lemma MissingCanBeFetched(g: Bus, b: nat, at: Lane)
    requires Sound(g) && b in g.hosts && LinesOf(g.hosts[b].lanes, at) <= AuthorLane(g, at)
    ensures Enabled(g, Step.Fetch(b, Missing(g, b, at)))
    ensures LinesOf(Fetched(g.hosts[b].lanes, Missing(g, b, at)), at) == AuthorLane(g, at)
  {
    var lanes := g.hosts[b].lanes;
    var more := AuthorLane(g, at)[|LinesOf(lanes, at)|..];
    forall lane: Lane ensures LinesOf(Fetched(lanes, Missing(g, b, at)), lane) <= AuthorLane(g, lane) {
      FetchedOneLane(lanes, at, more, lane);
      assert LinesOf(lanes, lane) <= AuthorLane(g, lane);
    }
    FetchedOneLane(lanes, at, more, at);
  }

  /** A fetch can always bring a host up to date with one author's lane. */
  lemma FetchCanCatchUp(g: Bus, b: nat, author: string) returns (incoming: Lanes)
    requires Sound(g) && b in g.hosts
    ensures Enabled(g, Step.Fetch(b, incoming)) && Homed(Next(g, Step.Fetch(b, incoming)))
    ensures
      var g' := Next(g, Step.Fetch(b, incoming));
      b in g'.hosts && LinesOf(g'.hosts[b].lanes, Dm(author)) == AuthorLane(g', Dm(author))
  {
    assert LinesOf(g.hosts[b].lanes, Dm(author)) <= AuthorLane(g, Dm(author));
    incoming := Missing(g, b, Dm(author));
    MissingCanBeFetched(g, b, Dm(author));
    var g' := Next(g, Step.Fetch(b, incoming));
    assert g'.hosts[b].lanes == Fetched(g.hosts[b].lanes, incoming);
    assert g.home(author) != b ==> g'.hosts[g.home(author)] == g.hosts[g.home(author)];
  }

  /** From a bus that remembers, a careful outbound pass can always be continued to two whole
      ticks that republish nothing and bring the receiver up to date. */
  lemma TwoTicksPossible(g: Bus, a: nat, b: nat, names: seq<string>, cfg: OutCfg, subs: map<string, seq<string>>,
                         author: string) returns (pa: Pass, pb: Pass, g': Bus)
    requires Inv(g) && Remembered(g) && a in g.hosts && b in g.hosts && a != b
    requires Enabled(g, Step.Outbound(a, names, cfg)) && Careful(g, Step.Outbound(a, names, cfg))
    ensures pa.names == names && pa.cfg == cfg && pa.subs == subs && pb.subs == subs
    ensures Reaches(g, TwoTicks(a, pa, b, pb), g') && OrderlyRun(g, TwoTicks(a, pa, b, pb), g')
    ensures Homed(g') && b in g'.hosts && LinesOf(g'.hosts[b].lanes, Dm(author)) == AuthorLane(g', Dm(author))
  {
    var g3;
    pa, g3 := TickPossible(g, a, names, cfg, subs, author);
    var others := SomeListing(g3.hosts[b].inboxes.Keys);
    pb, g' := TickPossible(g3, b, others, Plain(0.0), subs, author);
    ReachesThrough(g, TickRun(a, pa), g3, TickRun(b, pb), g');
    OneRecordIff(g, TickRun(a, pa), g3);
    OneRecordIff(g3, TickRun(b, pb), g');
    OneRecordIff(g, TwoTicks(a, pa, b, pb), g');
  }

  lemma TickPossible(g: Bus, h: nat, names: seq<string>, cfg: OutCfg, subs: map<string, seq<string>>, author: string)
      returns (p: Pass, g': Bus)
    requires Inv(g) && Remembered(g) && Enabled(g, Step.Outbound(h, names, cfg))
    ensures p.names == names && p.cfg == cfg && p.subs == subs
    ensures Reaches(g, TickRun(h, p), g') && Inv(g') && OrderlyRun(g, TickRun(h, p), g') &&
      g'.hosts.Keys == g.hosts.Keys
    ensures LinesOf(g'.hosts[h].lanes, Dm(author)) == AuthorLane(g', Dm(author))
    ensures Careful(g, Step.Outbound(h, names, cfg)) ==> Remembered(g')
  {
    var s1 := Step.Outbound(h, names, cfg);
    RememberedIsOrderly(g, s1);
    StepOneRecordIff(g, s1);
    var s2, s3 := FetchAndRead(Next(g, s1), h, subs, author);
    p, g' := Pass(names, cfg, s2.incoming, s3.files, subs), Next(Next(Next(g, s1), s2), s3);
    if Careful(g, s1) {
      CarefulRemembers(g, s1);
    }
    ThreeSteps(g, s1, s2, s3);
    OneRecordIff(g, TickRun(h, p), g');
  }

  lemma FetchAndRead(g: Bus, h: nat, subs: map<string, seq<string>>, author: string) returns (s2: Step, s3: Step)
    requires Inv(g) && h in g.hosts
    ensures s2.Fetch? && s2.h == h && s3.Inbound? && s3.h == h && s3.subs == subs
    ensures Enabled(g, s2) && Homed(Next(g, s2)) && Enabled(Next(g, s2), s3)
    ensures
      var g' := Next(Next(g, s2), s3);
      && Inv(g') && (Remembered(g) ==> Remembered(g')) && g'.hosts.Keys == g.hosts.Keys
      && LinesOf(g'.hosts[h].lanes, Dm(author)) == AuthorLane(g', Dm(author))
  {
    var incoming := FetchCanCatchUp(g, h, author);
    s2 := Step.Fetch(h, incoming);
    QuietStep(g, s2);
    s3 := CanRead(Next(g, s2), h, subs, author);
  }

  lemma CanRead(g: Bus, h: nat, subs: map<string, seq<string>>, author: string) returns (s: Step)
    requires Inv(g) && h in g.hosts && LinesOf(g.hosts[h].lanes, Dm(author)) == AuthorLane(g, Dm(author))
    ensures s.Inbound? && s.h == h && s.subs == subs && Enabled(g, s)
    ensures Inv(Next(g, s)) && (Remembered(g) ==> Remembered(Next(g, s))) && Next(g, s).hosts.Keys == g.hosts.Keys
    ensures LinesOf(Next(g, s).hosts[h].lanes, Dm(author)) == AuthorLane(Next(g, s), Dm(author))
  {
    var files := SomeListing(g.hosts[h].lanes.Keys);
    s := Step.Inbound(h, files, subs);
    QuietStep(g, s);
    SameAfterInbound(g, h, files, subs, Dm(author));
  }

  lemma ThreeSteps(g: Bus, s1: Step, s2: Step, s3: Step)
    requires Homed(g) && Enabled(g, s1) && Homed(Next(g, s1))
    requires Enabled(Next(g, s1), s2) && Homed(Next(Next(g, s1), s2))
    requires Enabled(Next(Next(g, s1), s2), s3) && Homed(Next(Next(Next(g, s1), s2), s3))
    ensures Reaches(g, [s1, s2, s3], Next(Next(Next(g, s1), s2), s3))
  {
    assert [s1, s2, s3][1..] == [s2, s3] && [s2, s3][1..] == [s3] && [s3][1..] == [];
    assert Reaches(Next(Next(g, s1), s2), [s3], Next(Next(Next(g, s1), s2), s3));
    assert Reaches(Next(g, s1), [s2, s3], Next(Next(Next(g, s1), s2), s3));
  }

  // ----- direct mail -----

  /** An outbound pass of host `a` that gets through, then `run`; no pass republishes. */
  ghost predicate Follows(g: Bus, a: nat, names: seq<string>, cfg: OutCfg, run: seq<Step>, g2: Bus)
    requires Homed(g)
  {
    var s := Step.Outbound(a, names, cfg);
    && Enabled(g, s) && !Out(g.hosts[a], names, cfg).raised && Orderly(g, s)
    && Homed(Next(g, s)) && Reaches(Next(g, s), run, g2) && OrderlyRun(Next(g, s), run, g2)
  }

  lemma SendKeepsLanes(g: Bus, a: nat, m: Msg, to: string, b: nat, lane: Lane)
    requires Homed(g) && Enabled(g, Step.Send(a, m, [(to, to)])) && b in g.hosts
    ensures
      var g' := Next(g, Step.Send(a, m, [(to, to)]));
      Homed(g') && b in g'.hosts && AuthorLane(g', lane) == AuthorLane(g, lane)
  {
  }

  /** Direct mail arrives: from any reachable state, a message sent to an agent with no live
      session at home, an outbound pass there, anything at all anywhere, then the first
      inbound pass of another host that reads past the lane as it was: the inbox the message
      resolved to holds exactly one copy there, equal to the original but for a pending state,
      no read time and the git tag, and no other inbox there holds any. */
  lemma DirectMailArrives(g0: Bus, run0: seq<Step>, g: Bus, a: nat, m: Msg, live: seq<string>, remote: set<string>,
                          subscribers: string -> seq<string>, names: seq<string>, cfg: OutCfg, run: seq<Step>, g2: Bus,
                          b: nat, files: seq<Lane>, subs: map<string, seq<string>>)
    requires Initial(g0) && Reaches(g0, run0, g) && Homed(g) && OneRecord(g)
    requires a in g.hosts && b in g.hosts && a != b
    requires ValidId(m.from_) && ValidId(m.to) && m.to != "all" && Offline(live, m.to)
    requires
      var to := Home(remote, m.to);
      && to != m.from_ && to != "all" && to !in cfg.live && Enabled(g, Step.Send(a, m, [(to, to)]))
      && Homed(Next(g, Step.Send(a, m, [(to, to)])))
      && Follows(Next(g, Step.Send(a, m, [(to, to)])), a, names, cfg, run, g2)
    requires Homed(g2) && Enabled(g2, Step.Inbound(b, files, subs))
    requires Consumed(g2.hosts[b].cursor, Dm(m.from_)) <= |AuthorLane(g, Dm(m.from_))|
    requires LinesOf(g2.hosts[b].lanes, Dm(m.from_)) == AuthorLane(g2, Dm(m.from_))
    ensures
      var to := Home(remote, m.to);
      var inboxes := Next(g2, Step.Inbound(b, files, subs)).hosts[b].inboxes;
      && Resolvers.CopiesFor(m.to, m.from_, live, remote, [], subscribers) == Resolvers.Copies([(to, to)])
      && Delivery.Copies(inboxes, to, m.id) == [m.(to := to, state := Pending, readAt := 0, via := Git)]
      && forall n :: n != to ==> Delivery.Copies(inboxes, n, m.id) == []
  {
    var to := Home(remote, m.to);
    var send := Step.Send(a, m, [(to, to)]);
    OfflineSendWritesOnce(m, live, remote, subscribers);
    SendFromReachable(g0, run0, g, a, m, to, cfg);
    StepOneRecordIff(g, send);
    SendKeepsLanes(g, a, m, to, b, Dm(m.from_));
    Delivery.EndToEnd(Next(g, send), a, b, names, cfg, m.(to := to), run, g2, files, subs);
  }
}
