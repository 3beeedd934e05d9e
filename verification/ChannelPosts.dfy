/** A channel post over the bus: from one host's inboxes to the subscribers on another
    (git_bridge.py, git_transport.py, dispatch_fs.py). */
module ChannelPosts {
  import opened Ids
  import opened Messages
  import opened Lanes
  import opened Replication
  import opened Bus
  import opened LoopFreedom
  import opened Delivery
  import DirectMail
  import Resolvers

  // ----- arriving -----

  /** A channel post as it travels. */
  predicate ChannelRecord(env: Env, m: Msg, chan: string) {
    && env.body == Some(m) && env.chan == Some(chan) && chan != "" && env.from_ == m.from_ && m.id != ""
  }

  /** Host `h` has the record of the post in its clone, and has not read it yet. */
  ghost predicate UnreadPost(g: Bus, h: nat, chan: string, i: nat, m: Msg)
    requires Homed(g) && h in g.hosts
  {
    var lane := Chan(chan, m.from_);
    UnreadAt(g, h, lane, i, m) && ChannelRecord(EnvAt(g, h, lane, i, m), m, chan)
  }

  /** Who is to get a post: the channel's subscribers with a valid id, but never its author. */
  predicate Subscribes(subs: map<string, seq<string>>, chan: string, author: string, n: string) {
    chan in subs && n in subs[chan] && n != author && ValidId(n)
  }

  lemma {:induction false} WithoutElements(names: seq<string>, author: string, n: string)
    ensures n in Without(names, author) <==> n in names && n != author
  {
    if names != [] {
      WithoutElements(names[1..], author, n);
      assert n in names <==> n == names[0] || n in names[1..];
    }
  }

  /** Exactly what an inbound pass does with an unread channel post: one fresh pending copy in
      the inbox of each subscriber but its author, if and only if that inbox has none, however
      often the subscriber is listed; nothing in any other inbox. */
  lemma InboundPosts(g: Bus, h: nat, files: seq<Lane>, subs: map<string, seq<string>>, chan: string, i: nat, m: Msg,
                     n: string)
    requires Inv(g) && h in g.hosts && Listing(g.hosts[h].lanes, files) && UnreadPost(g, h, chan, i, m)
    ensures Copies(Next(g, Step.Inbound(h, files, subs)).hosts[h].inboxes, n, m.id) ==
      Copies(g.hosts[h].inboxes, n, m.id) +
      if Subscribes(subs, chan, m.from_, n) && Copies(g.hosts[h].inboxes, n, m.id) == [] then [Delivered(m)] else []
  {
    InboundReaches(g, h, files, subs, Chan(chan, m.from_), i, m, n);
    WithoutElements(if chan in subs then subs[chan] else [], m.from_, n);
  }

  // ----- the sender's tick -----

  /** Copies of one post in the inboxes of several subscribers, some of whom have read it. */
  predicate SamePost(c: Msg, m: Msg) {
    c == m.(state := c.state, readAt := c.readAt)
  }

  /** A post to channel `chan` that the sender's next pass will publish: a copy lies in some
      inbox of the sender's host. */
  ghost predicate NewPost(g: Bus, a: nat, m: Msg, chan: string)
    requires a in g.hosts
  {
    && Placed(g.hosts[a].inboxes, m) && Mirrored(m) && m.id != "" && m.id !in g.hosts[a].ledger
    && (forall c :: Placed(g.hosts[a].inboxes, c) && Mirrored(c) && c.id == m.id ==> SamePost(c, m))
    && m.to == "#" + chan && ValidId(chan) && ValidId(m.from_)
  }

  /** Line `i` of the channel's lane is a record of the post. */
  predicate PostAt(clone: Lanes, chan: string, i: nat, m: Msg) {
    var lines := LinesOf(clone, Chan(chan, m.from_));
    i < |lines| && lines[i].Record? && ChannelRecord(lines[i].env, m, chan)
  }

  lemma TurnPosts(o: Outbox, cfg: OutCfg, m: Msg, chan: string)
    requires !o.raised && m.id != "" && m.id !in o.ledger && !PublishOne(o, m, cfg).raised
    requires m.to == "#" + chan && ValidId(chan) && ValidId(m.from_)
    ensures PostAt(PublishOne(o, m, cfg).clone, chan, |LinesOf(o.clone, Chan(chan, m.from_))|, m)
  {
    assert m.to[0] == '#' && m.to[1..] == chan;
  }

  lemma {:induction false} PassPosts(o: Outbox, msgs: seq<Msg>, cfg: OutCfg, m: Msg, chan: string)
      returns (i: nat, c: Msg)
    requires m in msgs && m.id != "" && m.id !in o.ledger && !PublishAll(o, msgs, cfg).raised
    requires forall x :: x in msgs && x.id == m.id ==> SamePost(x, m)
    requires m.to == "#" + chan && ValidId(chan) && ValidId(m.from_)
    ensures SamePost(c, m) && |LinesOf(o.clone, Chan(chan, m.from_))| <= i
    ensures PostAt(PublishAll(o, msgs, cfg).clone, chan, i, c)
    decreases |msgs|
  {
    var lane := Chan(chan, m.from_);
    var o1 := PublishOne(o, msgs[0], cfg);
    PublishAllGrows(o1, msgs[1..], cfg);
    if o1.raised {
      RaisedStays(o1, msgs[1..], cfg);
    }
    assert LinesOf(o1.clone, lane) <= LinesOf(PublishAll(o, msgs, cfg).clone, lane);
    if msgs[0].id == m.id {
      assert msgs[0] in msgs;
      i, c := |LinesOf(o.clone, lane)|, msgs[0];
      TurnPosts(o, cfg, c, chan);
      assert LinesOf(o1.clone, lane)[i] == LinesOf(PublishAll(o, msgs, cfg).clone, lane)[i];
    } else {
      assert m in msgs[1..];
      assert LinesOf(o.clone, lane) <= LinesOf(o1.clone, lane);
      i, c := PassPosts(o1, msgs[1..], cfg, m, chan);
    }
  }

  lemma SenderPosts(g: Bus, a: nat, names: seq<string>, cfg: OutCfg, m: Msg, chan: string) returns (i: nat, c: Msg)
    requires Inv(g) && a in g.hosts && NewPost(g, a, m, chan)
    requires Enabled(g, Step.Outbound(a, names, cfg)) && !Out(g.hosts[a], names, cfg).raised
    ensures SamePost(c, m) && |LinesOf(g.hosts[a].lanes, Chan(chan, m.from_))| <= i
    ensures PostAt(Next(g, Step.Outbound(a, names, cfg)).hosts[a].lanes, chan, i, c)
  {
    var host := g.hosts[a];
    var msgs := LocalMessages(host.inboxes, names);
    LocalMessagesElements(host.inboxes, names);
    forall x | x in msgs ensures Placed(host.inboxes, x) && Mirrored(x) {
      var k :| 0 <= k < |names| && x in InboxOf(host.inboxes, names[k]);
      assert names[k] in names;
    }
    var n :| n in host.inboxes && m in host.inboxes[n];
    assert n in names;
    assert m in msgs;
    i, c := PassPosts(Outbox(host.lanes, host.ledger, 0, false), msgs, cfg, m, chan);
  }

  // ----- end to end -----

  /** After any orderly run the record is in front of the receiver, unread. */
  lemma PostWaits(g: Bus, a: nat, b: nat, names: seq<string>, cfg: OutCfg, m: Msg, chan: string, run: seq<Step>,
                  g2: Bus)
      returns (i: nat, c: Msg)
    requires Inv(g) && a in g.hosts && b in g.hosts && a != b && NewPost(g, a, m, chan)
    requires Enabled(g, Step.Outbound(a, names, cfg)) && !Out(g.hosts[a], names, cfg).raised
    requires
      var s := Step.Outbound(a, names, cfg);
      Homed(Next(g, s)) && Reaches(Next(g, s), run, g2) && Orderly(g, s) && OrderlyRun(Next(g, s), run, g2)
    requires Homed(g2) && b in g2.hosts
    requires Consumed(g2.hosts[b].cursor, Chan(chan, m.from_)) <= |AuthorLane(g, Chan(chan, m.from_))|
    requires LinesOf(g2.hosts[b].lanes, Chan(chan, m.from_)) == AuthorLane(g2, Chan(chan, m.from_))
    ensures SamePost(c, m) && Inv(g2) && UnreadPost(g2, b, chan, i, c)
    ensures Carries(g2, Chan(chan, m.from_), i, m.id) && g2.home(m.from_) == a
  {
    var s, lane := Step.Outbound(a, names, cfg), Chan(chan, m.from_);
    var g1 := Next(g, s);
    i, c := SenderPosts(g, a, names, cfg, m, chan);
    assert GoodFile(g, a, m);
    StepOneRecordIff(g, s);
    OneRecordIff(g1, run, g2);
    RunGrows(g1, run, g2, lane);
    assert AuthorLane(g2, lane)[i] == AuthorLane(g1, lane)[i];
  }

  /** End to end, over any run: a new channel post, an outbound pass at its sender's host, then
      anything at all on any host, then the first inbound pass at another host that reads past
      the old end of the post's lane, with the lane up to date. There every subscriber but the
      author then holds exactly one copy, equal to the original but for a pending state, no
      read time and the git tag; no other inbox there holds any. */
  lemma EndToEndPost(g: Bus, a: nat, b: nat, names: seq<string>, cfg: OutCfg, m: Msg, chan: string, run: seq<Step>,
                     g2: Bus, files: seq<Lane>, subs: map<string, seq<string>>)
    requires Inv(g) && a in g.hosts && b in g.hosts && a != b && NewPost(g, a, m, chan)
    requires Enabled(g, Step.Outbound(a, names, cfg)) && !Out(g.hosts[a], names, cfg).raised
    requires
      var s := Step.Outbound(a, names, cfg);
      Homed(Next(g, s)) && Reaches(Next(g, s), run, g2) && Orderly(g, s) && OrderlyRun(Next(g, s), run, g2)
    requires Homed(g2) && Enabled(g2, Step.Inbound(b, files, subs))
    requires Consumed(g2.hosts[b].cursor, Chan(chan, m.from_)) <= |AuthorLane(g, Chan(chan, m.from_))|
    requires LinesOf(g2.hosts[b].lanes, Chan(chan, m.from_)) == AuthorLane(g2, Chan(chan, m.from_))
    ensures
      var inboxes := Next(g2, Step.Inbound(b, files, subs)).hosts[b].inboxes;
      forall n :: Copies(inboxes, n, m.id) ==
        if chan in subs && n in subs[chan] && n != m.from_ && ValidId(n)
        then [m.(state := Pending, readAt := 0, via := Git)] else []
  {
    var i, c := PostWaits(g, a, b, names, cfg, m, chan, run, g2);
    forall n ensures Copies(Next(g2, Step.Inbound(b, files, subs)).hosts[b].inboxes, n, m.id) ==
      if Subscribes(subs, chan, m.from_, n) then [Delivered(c)] else []
    {
      NothingBefore(g2, b, Chan(chan, m.from_), i, c, n);
      InboundPosts(g2, b, files, subs, chan, i, c, n);
    }
  }

  // ----- from the post to the bus, or not -----

  /** The message exists, but no inbox holds a copy and no lane a record of it. */
  ghost predicate Nowhere(g: Bus, id: string)
    requires Homed(g)
  {
    && id in g.born && !Carried(g, id)
    && forall h, c :: h in g.hosts && Placed(g.hosts[h].inboxes, c) ==> c.id != id
  }

  lemma PassCarriesNowhere(g: Bus, s: Step, id: string)
    requires Sound(g) && Enabled(g, s) && Nowhere(g, id) && s.Outbound?
    ensures Homed(Next(g, s)) && !Carried(Next(g, s), id)
  {
    var host := g.hosts[s.h];
    var msgs := LocalMessages(host.inboxes, s.names);
    forall lane, i: nat ensures !Carries(Next(g, s), lane, i, id) {
      OutboundCarries(g, s.h, s.names, s.cfg, lane, i, id);
      assert !Carries(g, lane, i, id);
      if Adds(host.lanes, Out(host, s.names, s.cfg).clone, lane, i, id) {
        AddsForAuthors(Start(host), msgs, s.cfg, lane, i, id);
        ScannedIsPlaced(host, s.names);
      }
    }
  }

  /** Only an outbound pass changes what the authors' lanes carry. */
  lemma QuietAuthorLane(g: Bus, s: Step, lane: Lane)
    requires Homed(g) && Enabled(g, s) && !s.Outbound?
    ensures Homed(Next(g, s)) && AuthorLane(Next(g, s), lane) == AuthorLane(g, lane)
  {
    if s.Fetch? {
      assert LinesOf(Fetched(g.hosts[s.h].lanes, s.incoming), lane) <= AuthorLane(g, lane);
    }
  }

  lemma QuietCarriesNowhere(g: Bus, s: Step, id: string)
    requires Sound(g) && Enabled(g, s) && Nowhere(g, id) && !s.Outbound?
    ensures Homed(Next(g, s)) && !Carried(Next(g, s), id)
  {
    QuietAuthorLane(g, s, Dm(""));
    forall lane: Lane, i: nat ensures !Carries(Next(g, s), lane, i, id) {
      QuietAuthorLane(g, s, lane);
      assert !Carries(g, lane, i, id);
    }
  }

  lemma CutBringsNothing(g: Bus, h: nat, files: seq<Lane>, subs: map<string, seq<string>>, k: nat, c: Msg, id: string)
    requires Sound(g) && Enabled(g, CutInbound(h, files, subs, k)) && Nowhere(g, id)
    requires Placed(AfterCut(g.hosts[h], files, subs, k).inboxes, c)
    ensures c.id != id
  {
    CutPlaces(g.hosts[h], files, subs, k);
    if !Placed(g.hosts[h].inboxes, c) {
      var batch := Envs(Batch(g.hosts[h].lanes, g.hosts[h].cursor, files, READER_ID));
      var env :| env in batch && env.body.Some? && c == Delivered(env.body.value);
      DrainedRecord(g, h, files, env);
    }
  }

  /** A step writes no file of it either. */
  lemma StepPlacesNowhere(g: Bus, s: Step, c: Msg, id: string)
    requires Sound(g) && Enabled(g, s) && Nowhere(g, id)
    requires s.h in Next(g, s).hosts && Placed(Next(g, s).hosts[s.h].inboxes, c)
    ensures c.id != id
  {
    var host := g.hosts[s.h];
    match s
    case Send(h, m, copies) => WriteCopiesPlaces(host.inboxes, m, copies);
    case NativeArrival(h, inbox, m) =>
      if c != m {
        var n :| n in Next(g, s).hosts[h].inboxes && c in Next(g, s).hosts[h].inboxes[n];
        assert c in InboxOf(host.inboxes, n);
      }
    case Local(h, inboxes) =>
    case Outbound(h, names, cfg) =>
    case Fetch(h, incoming) =>
    case Inbound(h, files, subs) =>
      InboundIsWholeCut(g, h, files, subs);
      CutBringsNothing(g, h, files, subs, |SlotsAt(host, files, subs)|, c, id);
    case CutInbound(h, files, subs, k) => CutBringsNothing(g, h, files, subs, k, c, id);
    case Restart(h, now) =>
  }

  /** What is nowhere stays nowhere. */
  lemma StepKeepsNowhere(g: Bus, s: Step, id: string)
    requires Sound(g) && Enabled(g, s) && Nowhere(g, id)
    ensures Sound(Next(g, s)) && Nowhere(Next(g, s), id)
  {
    StepKeepsSound(g, s);
    if s.Outbound? {
      PassCarriesNowhere(g, s, id);
    } else {
      QuietCarriesNowhere(g, s, id);
    }
    forall h, c | h in Next(g, s).hosts && Placed(Next(g, s).hosts[h].inboxes, c) ensures c.id != id {
      if h == s.h {
        StepPlacesNowhere(g, s, c, id);
      }
    }
  }

  lemma {:induction false} RunKeepsNowhere(g: Bus, run: seq<Step>, g': Bus, id: string)
    requires Sound(g) && Reaches(g, run, g') && Nowhere(g, id)
    ensures Sound(g') && Nowhere(g', id)
    decreases |run|
  {
    if run != [] {
      StepKeepsNowhere(g, run[0], id);
      RunKeepsNowhere(Next(g, run[0]), run[1..], g', id);
    }
  }

  /** Somebody else in the sender's own relay follows the channel. */
  ghost predicate HasListener(subscribers: string -> seq<string>, chan: string, author: string) {
    exists x :: x in subscribers(chan) && x != author
  }

  lemma {:induction false} WriteSameTo(inboxes: Inboxes, m: Msg, copies: seq<(string, string)>)
    requires forall i :: 0 <= i < |copies| ==> copies[i].1 == m.to
    ensures forall c :: Placed(WriteCopies(inboxes, m, copies), c) <==> Placed(inboxes, c) || (copies != [] && c == m)
    decreases |copies|
  {
    if copies != [] {
      var inbox := copies[0].0;
      var next := inboxes[inbox := InboxOf(inboxes, inbox) + [m]];
      WriteSameTo(next, m, copies[1..]);
      assert m in next[inbox];
      forall c ensures Placed(next, c) <==> Placed(inboxes, c) || c == m {
        if Placed(next, c) && c != m {
          var n :| n in next && c in next[n];
          assert c in InboxOf(inboxes, n);
        }
        if Placed(inboxes, c) {
          var n :| n in inboxes && c in inboxes[n];
          assert c in next[n];
        }
      }
    }
  }

  lemma PostCopies(m: Msg, chan: string, live: seq<string>, remote: set<string>, roster: seq<string>,
                   subscribers: string -> seq<string>, copies: seq<(string, string)>)
    requires m.to == "#" + chan
    requires Resolvers.CopiesFor(m.to, m.from_, live, remote, roster, subscribers) == Resolvers.Copies(copies)
    ensures forall i :: 0 <= i < |copies| ==> copies[i].1 == m.to
    ensures copies != [] <==> HasListener(subscribers, chan, m.from_)
  {
    assert m.to[0] == '#' && m.to[1..] == chan;
    Resolvers.CopiesShape(m.to, m.from_, [], {}, [], subscribers);
    assert Resolvers.CopiesFor(m.to, m.from_, [], {}, [], subscribers) == Resolvers.Copies(copies);
    if HasListener(subscribers, chan, m.from_) {
      var x :| x in subscribers(chan) && x != m.from_;
      assert (x, m.to) in copies;
    }
    assert copies != [] ==> (copies[0].0, m.to) in copies;
  }

  /** What `send_message` writes of a post: a copy for each subscriber here but the author, and
      so, with no such subscriber, nothing at all. */
  lemma PostSent(g: Bus, a: nat, m: Msg, chan: string, live: seq<string>, remote: set<string>, roster: seq<string>,
                 subscribers: string -> seq<string>, copies: seq<(string, string)>)
    requires Sound(g) && DirectMail.LedgersBorn(g) && Enabled(g, Step.Send(a, m, copies))
    requires m.to == "#" + chan && ValidId(chan) && ValidId(m.from_)
    requires Resolvers.CopiesFor(m.to, m.from_, live, remote, roster, subscribers) == Resolvers.Copies(copies)
    ensures Sound(Next(g, Step.Send(a, m, copies)))
    ensures
      var g' := Next(g, Step.Send(a, m, copies));
      if HasListener(subscribers, chan, m.from_) then NewPost(g', a, m, chan) else Nowhere(g', m.id)
  {
    var s := Step.Send(a, m, copies);
    StepKeepsSound(g, s);
    PostCopies(m, chan, live, remote, roster, subscribers, copies);
    WriteSameTo(g.hosts[a].inboxes, m, copies);
    forall h, c | h in g.hosts && Placed(g.hosts[h].inboxes, c) ensures c.id != m.id {
      assert GoodFile(g, h, c);
    }
    forall lane: Lane, i: nat ensures !Carries(Next(g, s), lane, i, m.id) {
      assert AuthorLane(Next(g, s), lane) == AuthorLane(g, lane);
      if Carries(g, lane, i, m.id) {
        CarriedIsBorn(g, lane, i, m.id);
      }
    }
  }

  lemma SendKeepsLane(g: Bus, s: Step, lane: Lane)
    requires Homed(g) && Enabled(g, s) && s.Send?
    ensures Homed(Next(g, s)) && Next(g, s).hosts.Keys == g.hosts.Keys
    ensures AuthorLane(Next(g, s), lane) == AuthorLane(g, lane)
  {
  }

  /** From any reachable state, a post is sent, a pass at its sender's host gets through, then
      anything at all happens anywhere, and another host reads past its lane as it was. A
      subscriber there gets its one copy exactly when somebody else in the sender's own relay
      follows the channel as well: without such a listener no file of the post is ever written,
      so no bridge can carry it, and nobody gets it on any host. */
  lemma PostCrossesIff(g0: Bus, run0: seq<Step>, g: Bus, a: nat, m: Msg, chan: string, live: seq<string>,
                       remote: set<string>, roster: seq<string>, subscribers: string -> seq<string>,
                       copies: seq<(string, string)>, names: seq<string>, cfg: OutCfg, run: seq<Step>, g2: Bus,
                       b: nat, files: seq<Lane>, subs: map<string, seq<string>>)
    requires Initial(g0) && Reaches(g0, run0, g) && Homed(g) && OneRecord(g)
    requires a in g.hosts && b in g.hosts && a != b
    requires m.to == "#" + chan && ValidId(chan) && ValidId(m.from_)
    requires Resolvers.CopiesFor(m.to, m.from_, live, remote, roster, subscribers) == Resolvers.Copies(copies)
    requires Enabled(g, Step.Send(a, m, copies)) && Homed(Next(g, Step.Send(a, m, copies)))
    requires DirectMail.Follows(Next(g, Step.Send(a, m, copies)), a, names, cfg, run, g2)
    requires Homed(g2) && Enabled(g2, Step.Inbound(b, files, subs))
    requires Consumed(g2.hosts[b].cursor, Chan(chan, m.from_)) <= |AuthorLane(g, Chan(chan, m.from_))|
    requires LinesOf(g2.hosts[b].lanes, Chan(chan, m.from_)) == AuthorLane(g2, Chan(chan, m.from_))
    ensures
      var inboxes := Next(g2, Step.Inbound(b, files, subs)).hosts[b].inboxes;
      forall n :: Copies(inboxes, n, m.id) ==
        if HasListener(subscribers, chan, m.from_) && Subscribes(subs, chan, m.from_, n)
        then [m.(state := Pending, readAt := 0, via := Git)] else []
  {
    var send, pass, read := Step.Send(a, m, copies), Step.Outbound(a, names, cfg), Step.Inbound(b, files, subs);
    var g1 := Next(g, send);
    InitialSound(g0);
    DirectMail.RunKeepsLedgers(g0, run0, g);
    PostSent(g, a, m, chan, live, remote, roster, subscribers, copies);
    StepOneRecordIff(g, send);
    SendKeepsLane(g, send, Chan(chan, m.from_));
    if HasListener(subscribers, chan, m.from_) {
      EndToEndPost(g1, a, b, names, cfg, m, chan, run, g2, files, subs);
    } else {
      StepKeepsNowhere(g1, pass, m.id);
      RunKeepsNowhere(Next(g1, pass), run, g2, m.id);
      StepKeepsNowhere(g2, read, m.id);
      forall n ensures Copies(Next(g2, read).hosts[b].inboxes, n, m.id) == [] {
        NobodyHasIt(Next(g2, read), b, n, m.id);
      }
    }
  }

  lemma NobodyHasIt(g: Bus, h: nat, n: string, id: string)
    requires Homed(g) && Nowhere(g, id) && h in g.hosts
    ensures Copies(g.hosts[h].inboxes, n, id) == []
  {
    NoCopies(g.hosts[h].inboxes, n, id);
    forall c | c in InboxOf(g.hosts[h].inboxes, n) ensures c.id != id {
      assert Placed(g.hosts[h].inboxes, c);
    }
  }
}
