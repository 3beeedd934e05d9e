/** The mail a supervisor counts before starting a nick (supervisor.py) against the mail
    the started session adopts (server.py): the two must name the same inboxes, or a start
    would not clear the trigger that caused it. */
module Trigger {
  import opened Ids
  import opened Messages
  import opened Order
  import opened Replication
  import Inheritance

  /** The relay directory: inbox names as listed, their messages, the presence locks held,
      the remote roster, and the directories this account owns. */
  datatype Spool = Spool(dirs: seq<string>, inboxes: Inboxes, live: set<string>, remote: set<string>,
                         owned: set<string>)

  function WaitingAt(now: real): Msg -> bool { (m: Msg) => Waiting(m, now) }

  function IsPending(): Msg -> bool { (m: Msg) => m.state == Pending }

  function NotPending(): Msg -> bool { (m: Msg) => m.state != Pending }

  // ----- what the supervisor counts -----

  function CountedFor(s: Spool, nick: string): string -> bool {
    (d: string) =>
      && !(d != "" && d[0] == '.')
      && (d == nick || DurableNick(d) == nick)
      && (d != nick ==> d !in s.live)
      && d in s.owned
  }

  /** `inherit_sources`. */
  function Sources(s: Spool, nick: string, inherit: bool): seq<string> {
    if inherit then Filter(CountedFor(s, nick), s.dirs)
    else if nick in s.dirs && nick in s.owned then [nick] else []
  }

  function TotalWaiting(inboxes: Inboxes, dirs: seq<string>, now: real): nat {
    if dirs == [] then 0
    else |Filter(WaitingAt(now), InboxOf(inboxes, dirs[0]))| + TotalWaiting(inboxes, dirs[1..], now)
  }

  function WaitingMail(s: Spool, nick: string, inherit: bool, now: real): nat {
    TotalWaiting(s.inboxes, Sources(s, nick, inherit), now)
  }

  // ----- what the server adopts -----

  function DonorFor(s: Spool, agent: string): string -> bool {
    (d: string) => Inheritance.IsSource(agent, d) && d !in s.remote && d !in s.live && d in s.owned
  }

  function Donors(s: Spool, agent: string): seq<string> { Filter(DonorFor(s, agent), s.dirs) }

  function Tag(msgs: seq<Msg>, donor: string): seq<Msg> {
    if msgs == [] then [] else [Inheritance.Tagged(msgs[0], donor)] + Tag(msgs[1..], donor)
  }

  /** Everything pending in one donor moves over, tagged with where it came from. */
  function AdoptFrom(inboxes: Inboxes, mine: string, donor: string): Inboxes {
    inboxes[donor := Filter(NotPending(), InboxOf(inboxes, donor))]
      [mine := InboxOf(inboxes, mine) + Tag(Filter(IsPending(), InboxOf(inboxes, donor)), donor)]
  }

  function AdoptAll(inboxes: Inboxes, mine: string, donors: seq<string>): Inboxes
    decreases |donors|
  {
    if donors == [] then inboxes else AdoptAll(AdoptFrom(inboxes, mine, donors[0]), mine, donors[1..])
  }

  /** `_inherit_orphan_inbox` without a racing sweeper. Nothing can be moved into a directory
      that is not there. */
  function Inherited(s: Spool, agent: string, inherit: bool): Spool {
    if inherit && agent in s.dirs then s.(inboxes := AdoptAll(s.inboxes, agent, Donors(s, agent))) else s
  }

  /** The sweep of one donor. */
  function SweptOne(s: Spool, agent: string, donor: string): Spool {
    if agent in s.dirs then s.(inboxes := AdoptFrom(s.inboxes, agent, donor)) else s
  }

  /** What is left to do when the sweep comes to place `i` of the listed directories. */
  ghost predicate SweepingAt(s0: Spool, s: Spool, agent: string, dirs: seq<string>, i: nat) {
    && i <= |dirs| && s == s0.(inboxes := s.inboxes)
    && (agent !in s0.dirs ==> s == s0)
    && (agent in s0.dirs ==>
          AdoptAll(s.inboxes, agent, Filter(DonorFor(s0, agent), dirs[i..])) ==
          AdoptAll(s0.inboxes, agent, Donors(s0, agent)))
  }

  /** The turn of one directory of the listing. */
  function SweptIfDonor(s: Spool, agent: string, d: string): Spool {
    if DonorFor(s, agent)(d) then SweptOne(s, agent, d) else s
  }

  lemma SweepGoesOn(s0: Spool, s: Spool, agent: string, dirs: seq<string>, i: nat)
    requires i < |dirs| && SweepingAt(s0, s, agent, dirs, i)
    ensures SweepingAt(s0, SweptIfDonor(s, agent, dirs[i]), agent, dirs, i + 1)
  {
    assert dirs[i..][1..] == dirs[i + 1..];
    assert DonorFor(s, agent)(dirs[i]) <==> DonorFor(s0, agent)(dirs[i]);
    if DonorFor(s0, agent)(dirs[i]) {
      assert Filter(DonorFor(s0, agent), dirs[i..])[1..] == Filter(DonorFor(s0, agent), dirs[i + 1..]);
    }
  }

  /** The turns from place `i` of the listing on. */
  function SweptFrom(s: Spool, agent: string, dirs: seq<string>, i: nat): Spool
    requires i <= |dirs|
    decreases |dirs| - i
  {
    if i == |dirs| then s else SweptFrom(SweptIfDonor(s, agent, dirs[i]), agent, dirs, i + 1)
  }

  lemma {:induction false} SweptFromIsInherited(s0: Spool, s: Spool, agent: string, i: nat)
    requires SweepingAt(s0, s, agent, s0.dirs, i)
    ensures SweptFrom(s, agent, s0.dirs, i) == Inherited(s0, agent, true)
    decreases |s0.dirs| - i
  {
    if i == |s0.dirs| {
      assert s0.dirs[i..] == [];
    } else {
      SweepGoesOn(s0, s, agent, s0.dirs, i);
      SweptFromIsInherited(s0, SweptIfDonor(s, agent, s0.dirs[i]), agent, i + 1);
    }
  }

  /** All turns together are the sweep. */
  lemma SweepIsInherited(s: Spool, agent: string)
    ensures SweptFrom(s, agent, s.dirs, 0) == Inherited(s, agent, true)
  {
    assert s.dirs[0..] == s.dirs;
    SweptFromIsInherited(s, s, agent, 0);
  }

  lemma NothingInherited(s: Spool, agent: string)
    requires DurableNick(agent) == agent
    ensures Inherited(s, agent, true) == s
  {
    NoDonors(s, agent, s.dirs);
  }

  /** A session claims its id: presence lock and inbox directory. */
  function Claimed(s: Spool, agent: string): Spool {
    s.(live := s.live + {agent}, owned := s.owned + {agent},
       dirs := if agent in s.dirs then s.dirs else Insert(StrLeq, agent, s.dirs))
  }

  // ----- the loops -----

  class Relay {
    var spool: Spool

    method InheritSources(nick: string, inherit: bool) returns (out: seq<string>)
      ensures out == Sources(spool, nick, inherit)
    {
      out := [];
      if !inherit {
        if nick in spool.dirs && nick in spool.owned {
          out := [nick];
        }
        return;
      }
      var dirs := spool.dirs;
      assert dirs[0..] == dirs;
      var i := 0;
      while i < |dirs|
        invariant 0 <= i <= |dirs|
        invariant out + Filter(CountedFor(spool, nick), dirs[i..]) == Filter(CountedFor(spool, nick), dirs)
      {
        var d := dirs[i];
        assert dirs[i..][1..] == dirs[i + 1..];
        i := i + 1;
        if d != "" && d[0] == '.' { continue; }
        if d != nick && DurableNick(d) != nick { continue; }
        if d != nick && d in spool.live { continue; }
        if d !in spool.owned { continue; }
        out := out + [d];
      }
    }

    method CountWaiting(nick: string, inherit: bool, now: real) returns (n: nat)
      ensures n == WaitingMail(spool, nick, inherit, now)
    {
      var dirs := InheritSources(nick, inherit);
      n := 0;
      assert dirs[0..] == dirs;
      var i := 0;
      while i < |dirs|
        invariant 0 <= i <= |dirs|
        invariant n + TotalWaiting(spool.inboxes, dirs[i..], now) == TotalWaiting(spool.inboxes, dirs, now)
      {
        var k := CountPending(InboxOf(spool.inboxes, dirs[i]), now);
        assert dirs[i..][1..] == dirs[i + 1..];
        n := n + k;
        i := i + 1;
      }
    }

    /** Walk one donor, claiming each pending file and tagging it; without an inbox of its own
        every claim fails. */
    method SweepDonor(agent: string, donor: string) returns (moved: nat)
      requires agent != donor
      modifies this
      ensures spool == SweptOne(old(spool), agent, donor)
      ensures |InboxOf(spool.inboxes, agent)| == |InboxOf(old(spool).inboxes, agent)| + moved
    {
      if agent !in spool.dirs {
        return 0;
      }
      var mine := InboxOf(spool.inboxes, agent);
      var kept, claimed := ClaimPending(InboxOf(spool.inboxes, donor), donor);
      TagKeepsOrder(Filter(IsPending(), InboxOf(spool.inboxes, donor)), donor);
      moved := |claimed|;
      spool := spool.(inboxes := spool.inboxes[donor := kept][agent := mine + claimed]);
    }

    /** The turn of one directory: passed over, or swept as a donor. */
    method SweepDirectory(agent: string, d: string) returns (moved: nat)
      requires DurableNick(agent) != agent
      modifies this
      ensures spool == SweptIfDonor(old(spool), agent, d)
      ensures |InboxOf(spool.inboxes, agent)| == |InboxOf(old(spool).inboxes, agent)| + moved
    {
      if d == agent { return 0; }
      if !(IsSessionOf(DurableNick(agent), d) || d == DurableNick(agent)) { return 0; }
      if d in spool.remote { return 0; }
      if d in spool.live { return 0; }
      if d !in spool.owned { return 0; }
      moved := SweepDonor(agent, d);
    }

    /** The whole sweep. */
    method InheritOrphanInbox(agent: string, inherit: bool) returns (moved: nat)
      modifies this
      ensures spool == Inherited(old(spool), agent, inherit)
      ensures |InboxOf(spool.inboxes, agent)| == |InboxOf(old(spool).inboxes, agent)| + moved
    {
      moved := 0;
      if !inherit { return; }
      ghost var s0 := spool;
      if DurableNick(agent) == agent {
        NothingInherited(spool, agent);
        return;
      }
      var dirs := spool.dirs;
      SweepIsInherited(spool, agent);
      var i := 0;
      while i < |dirs|
        invariant 0 <= i <= |dirs|
        invariant SweptFrom(spool, agent, dirs, i) == SweptFrom(s0, agent, dirs, 0)
        invariant |InboxOf(spool.inboxes, agent)| == |InboxOf(s0.inboxes, agent)| + moved
      {
        var n := SweepDirectory(agent, dirs[i]);
        moved := moved + n;
        i := i + 1;
      }
    }
  }

  method ClaimPending(files: seq<Msg>, donor: string) returns (kept: seq<Msg>, claimed: seq<Msg>)
    ensures kept == Filter(NotPending(), files)
    ensures claimed == Tag(Filter(IsPending(), files), donor)
  {
    kept, claimed := [], [];
    assert files[0..] == files;
    var i := 0;
    while i < |files|
      invariant 0 <= i <= |files|
      invariant kept + Filter(NotPending(), files[i..]) == Filter(NotPending(), files)
      invariant claimed + Tag(Filter(IsPending(), files[i..]), donor) == Tag(Filter(IsPending(), files), donor)
    {
      assert files[i..][1..] == files[i + 1..];
      if files[i].state == Pending {
        claimed := claimed + [Inheritance.Tagged(files[i], donor)];
      } else {
        kept := kept + [files[i]];
      }
      i := i + 1;
    }
    assert files[i..] == [];
  }

  method CountPending(inbox: seq<Msg>, now: real) returns (n: nat)
    ensures n == |Filter(WaitingAt(now), inbox)|
  {
    n := 0;
    assert inbox[0..] == inbox;
    var i := 0;
    while i < |inbox|
      invariant 0 <= i <= |inbox|
      invariant n + |Filter(WaitingAt(now), inbox[i..])| == |Filter(WaitingAt(now), inbox)|
    {
      assert inbox[i..][1..] == inbox[i + 1..];
      if inbox[i].state == Pending && !IsExpired(inbox[i], now) {
        n := n + 1;
      }
      i := i + 1;
    }
  }

  lemma {:induction false} NoDonors(s: Spool, agent: string, dirs: seq<string>)
    requires DurableNick(agent) == agent
    ensures Filter(DonorFor(s, agent), dirs) == []
  {
    if dirs != [] {
      NoDonors(s, agent, dirs[1..]);
    }
  }

  lemma {:induction false} TagKeepsOrder(msgs: seq<Msg>, donor: string)
    ensures |Tag(msgs, donor)| == |msgs|
    ensures forall i :: 0 <= i < |msgs| ==> Tag(msgs, donor)[i] == Inheritance.Tagged(msgs[i], donor)
  {
    if msgs != [] {
      TagKeepsOrder(msgs[1..], donor);
    }
  }

  // ----- what one sweep leaves behind -----

  /** Adopting from the rest leaves an inbox that is neither donor nor heir alone, and only
      appends to the heir's. */
  lemma {:induction false} AdoptAllKeeps(inboxes: Inboxes, mine: string, donors: seq<string>, d: string)
    requires mine !in donors
    ensures d !in donors && d != mine ==> InboxOf(AdoptAll(inboxes, mine, donors), d) == InboxOf(inboxes, d)
    ensures InboxOf(inboxes, mine) <= InboxOf(AdoptAll(inboxes, mine, donors), mine)
    decreases |donors|
  {
    if donors != [] {
      AdoptAllKeeps(AdoptFrom(inboxes, mine, donors[0]), mine, donors[1..], d);
    }
  }

  /** A donor keeps only what was not pending, and the heir gets every pending message. */
  lemma {:induction false} AdoptAllMoves(inboxes: Inboxes, mine: string, donors: seq<string>, d: string)
    requires mine !in donors && d in donors
    ensures InboxOf(AdoptAll(inboxes, mine, donors), d) == Filter(NotPending(), InboxOf(inboxes, d))
    ensures forall m :: m in InboxOf(inboxes, d) && m.state == Pending ==>
      Inheritance.Tagged(m, d) in InboxOf(AdoptAll(inboxes, mine, donors), mine)
    decreases |donors|
  {
    var next := AdoptFrom(inboxes, mine, donors[0]);
    if d in donors[1..] {
      AdoptAllMoves(next, mine, donors[1..], d);
      if d == donors[0] {
        MovedArrive(inboxes, mine, d);
        AdoptAllKeeps(next, mine, donors[1..], d);
        FilterElements(NotPending(), InboxOf(inboxes, d));
        FilterAll(NotPending(), Filter(NotPending(), InboxOf(inboxes, d)));
      }
    } else {
      MovedArrive(inboxes, mine, d);
      AdoptAllKeeps(next, mine, donors[1..], d);
    }
  }

  lemma MovedArrive(inboxes: Inboxes, mine: string, d: string)
    requires mine != d
    ensures forall m :: m in InboxOf(inboxes, d) && m.state == Pending ==>
      Inheritance.Tagged(m, d) in InboxOf(AdoptFrom(inboxes, mine, d), mine)
  {
    var pending := Filter(IsPending(), InboxOf(inboxes, d));
    FilterElements(IsPending(), InboxOf(inboxes, d));
    TagKeepsOrder(pending, d);
    forall m | m in InboxOf(inboxes, d) && m.state == Pending
      ensures Inheritance.Tagged(m, d) in InboxOf(AdoptFrom(inboxes, mine, d), mine)
    {
      assert m in pending;
      var i :| 0 <= i < |pending| && pending[i] == m;
      assert Tag(pending, d)[i] == Inheritance.Tagged(m, d);
    }
  }

  // ----- the two source sets agree -----

  /** Inboxes the supervisor counts and the server leaves alone: those listed as another
      host's, and the nick's own while a session by that bare name is live. */
  predicate Blocked(s: Spool, nick: string, d: string) { d in s.remote || (d == nick && nick in s.live) }

  /** The started session has an id `<nick>-<pid>`. */
  predicate SuccessorOf(agent: string, nick: string) { ValidId(nick) && IsSessionOf(nick, agent) }

  /** Once the session is up, its donors are exactly the supervisor's sources that are not
      blocked. */
  lemma SourcesAgree(s: Spool, nick: string, agent: string, d: string)
    requires SuccessorOf(agent, nick) && agent in s.live
    ensures DonorFor(s, agent)(d) <==> CountedFor(s, nick)(d) && !Blocked(s, nick, d)
  {
    SessionIffDurable(nick, agent);
    SessionIffDurable(nick, d);
    assert d != "" && d[0] == '.' ==> d != nick && !IsSessionOf(nick, d);
  }

  function LeftOverFor(s: Spool, nick: string): string -> bool {
    (d: string) => CountedFor(s, nick)(d) && Blocked(s, nick, d)
  }

  lemma ClaimedDirs(s: Spool, agent: string)
    ensures forall d :: d in Claimed(s, agent).dirs <==> d == agent || d in s.dirs
  {
    InsertMultiset(StrLeq, agent, s.dirs);
    forall d ensures d in Claimed(s, agent).dirs <==> d == agent || d in s.dirs {
      assert d in Claimed(s, agent).dirs <==> d in multiset(Claimed(s, agent).dirs);
    }
  }

  lemma {:induction false} NoneWaitingIn(msgs: seq<Msg>, now: real)
    ensures Filter(WaitingAt(now), Filter(NotPending(), msgs)) == []
  {
    FilterElements(NotPending(), msgs);
    FilterNone(WaitingAt(now), Filter(NotPending(), msgs));
  }

  lemma {:induction false} RemainingOver(s: Spool, nick: string, agent: string, dirs: seq<string>, now: real)
    requires SuccessorOf(agent, nick) && agent in s.live && agent in s.dirs && forall d :: d in dirs ==> d in s.dirs
    ensures
      TotalWaiting(Inherited(s, agent, true).inboxes, Filter(CountedFor(s, nick), dirs), now) ==
      TotalWaiting(s.inboxes, Filter(LeftOverFor(s, nick), dirs), now)
  {
    if dirs != [] {
      RemainingOver(s, nick, agent, dirs[1..], now);
      var d := dirs[0];
      var donors := Donors(s, agent);
      SourcesAgree(s, nick, agent, d);
      FilterElements(DonorFor(s, agent), s.dirs);
      if d in donors {
        AdoptAllMoves(s.inboxes, agent, donors, d);
        NoneWaitingIn(InboxOf(s.inboxes, d), now);
      } else if CountedFor(s, nick)(d) {
        AdoptAllKeeps(s.inboxes, agent, donors, d);
      }
    }
  }

  /** What a sweep leaves of the trigger: with inheritance on and the session's inbox there,
      exactly the mail in blocked inboxes; otherwise everything. */
  lemma RemainingMail(s: Spool, nick: string, agent: string, inherit: bool, now: real)
    requires SuccessorOf(agent, nick) && agent in s.live
    ensures WaitingMail(Inherited(s, agent, inherit), nick, inherit, now) ==
      if inherit && agent in s.dirs then TotalWaiting(s.inboxes, Filter(LeftOverFor(s, nick), s.dirs), now)
      else WaitingMail(s, nick, inherit, now)
  {
    if inherit && agent in s.dirs {
      RemainingOver(s, nick, agent, s.dirs, now);
      SameSources(s, Inherited(s, agent, true), nick, s.dirs);
    }
  }

  lemma {:induction false} SameSources(s: Spool, s': Spool, nick: string, dirs: seq<string>)
    requires s'.live == s.live && s'.owned == s.owned
    ensures Filter(CountedFor(s, nick), dirs) == Filter(CountedFor(s', nick), dirs)
  {
    if dirs != [] {
      SameSources(s, s', nick, dirs[1..]);
    }
  }

  lemma {:induction false} TotalZeroIff(inboxes: Inboxes, dirs: seq<string>, now: real)
    ensures TotalWaiting(inboxes, dirs, now) == 0 <==>
      forall d :: d in dirs ==> Filter(WaitingAt(now), InboxOf(inboxes, d)) == []
  {
    if dirs != [] {
      TotalZeroIff(inboxes, dirs[1..], now);
      assert dirs == [dirs[0]] + dirs[1..];
    }
  }

  /** Still counted after the start, and not adopted. */
  predicate Stuck(s: Spool, nick: string, agent: string, d: string) {
    d in s.dirs && d != agent && CountedFor(s, nick)(d) && d in s.remote
  }

  lemma StuckIff(s: Spool, nick: string, agent: string, d: string)
    requires SuccessorOf(agent, nick) && nick !in s.live
    ensures
      var up := Claimed(s, agent);
      d in Filter(LeftOverFor(up, nick), up.dirs) <==> Stuck(s, nick, agent, d)
  {
    var up := Claimed(s, agent);
    ClaimedDirs(s, agent);
    FilterElements(LeftOverFor(up, nick), up.dirs);
    assert agent != nick;
    var counted, blocked := CountedFor(up, nick)(d), Blocked(up, nick, d);
    assert LeftOverFor(up, nick)(d) == (counted && blocked);
    if d == agent {
      assert !counted;
    } else {
      assert counted == CountedFor(s, nick)(d);
      assert blocked == (d in s.remote);
    }
  }

  /** A start clears its own trigger, for a nick with no live session, exactly when no
      source of it that is listed as remote holds waiting mail. */
  lemma StartClearsTriggerIff(s: Spool, nick: string, agent: string, now: real)
    requires SuccessorOf(agent, nick) && nick !in s.live
    ensures WaitingMail(Inherited(Claimed(s, agent), agent, true), nick, true, now) == 0 <==>
      forall d :: Stuck(s, nick, agent, d) ==> Filter(WaitingAt(now), InboxOf(s.inboxes, d)) == []
  {
    var up := Claimed(s, agent);
    var left := Filter(LeftOverFor(up, nick), up.dirs);
    ClaimedDirs(s, agent);
    RemainingMail(up, nick, agent, true, now);
    TotalZeroIff(s.inboxes, left, now);
    forall d ensures d in left <==> Stuck(s, nick, agent, d) { StuckIff(s, nick, agent, d); }
  }

  /** And it adopts every message the supervisor counted: each is in the session's inbox
      afterwards, tagged unless it was there already. */
  lemma StartAdoptsCounted(s: Spool, nick: string, agent: string, now: real, d: string, m: Msg)
    requires SuccessorOf(agent, nick) && nick !in s.live
    requires d in Sources(s, nick, true) && d !in s.remote && m in InboxOf(s.inboxes, d) && Waiting(m, now)
    ensures
      var mine := InboxOf(Inherited(Claimed(s, agent), agent, true).inboxes, agent);
      if d == agent then m in mine else m.(inheritedFrom := Some(d)) in mine
  {
    var up := Claimed(s, agent);
    var donors := Donors(up, agent);
    ClaimedDirs(s, agent);
    FilterElements(CountedFor(s, nick), s.dirs);
    FilterElements(DonorFor(up, agent), up.dirs);
    AdoptAllKeeps(s.inboxes, agent, donors, d);
    if d != agent {
      SourcesAgree(up, nick, agent, d);
      AdoptAllMoves(s.inboxes, agent, donors, d);
    }
  }

  lemma TotalOfOne(inboxes: Inboxes, d: string, now: real)
    ensures TotalWaiting(inboxes, [d], now) == |Filter(WaitingAt(now), InboxOf(inboxes, d))|
  {
    assert TotalWaiting(inboxes, [d][1..], now) == 0;
  }

  /** With inheritance off a `<nick>-<pid>` session never clears the trigger it was started
      for: the nick's own inbox stays as full as it was. */
  lemma NotClearedWithoutInheritance(s: Spool, nick: string, agent: string, now: real)
    requires SuccessorOf(agent, nick) && nick in s.dirs && nick in s.owned
    ensures WaitingMail(Inherited(Claimed(s, agent), agent, false), nick, false, now) ==
      |Filter(WaitingAt(now), InboxOf(s.inboxes, nick))|
  {
    var up := Claimed(s, agent);
    ClaimedDirs(s, agent);
    assert nick in up.dirs && Sources(up, nick, false) == [nick];
    TotalOfOne(s.inboxes, nick, now);
  }
}
