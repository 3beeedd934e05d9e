/** Mapping a message target to inboxes: the Python resolver (dispatch_fs.py), the Go one
    (tui/relay/relay.go), which must agree, and what a send then writes. */
module Resolvers {
  import opened Ids
  import opened Messages
  import opened Order

  function SessionsOf(nick: string): string -> bool { (id: string) => DurableNick(id) == nick }

  function SortedSessions(live: seq<string>, nick: string): seq<string> {
    StableSort(StrLeq, Filter(SessionsOf(nick), live))
  }

  /** `resolve_recipients`, over the live agents and the names listed under `.remote`. */
  function Resolve(live: seq<string>, remote: set<string>, target: string): seq<string> {
    var named := SortedSessions(live, target);
    var nick := DurableNick(target);
    if target in live then [target]
    else if named != [] then named
    else if nick == target || target in remote then [target]
    else if SortedSessions(live, nick) != [] then SortedSessions(live, nick)
    else [nick]
  }

  // ----- the Go side -----

  datatype Agent = Agent(id: string, live: bool, remote: bool)

  predicate DigitsFrom(s: string, i: nat) { i < |s| && forall j :: i <= j < |s| ==> IsDigit(s[j]) }

  /** `Project`: drop what the pattern `-[0-9]+$` matches, searching from the left. */
  method Project(id: string) returns (nick: string)
    ensures nick == if id == "" || id == "all" || id[0] == '#' then id else Stripped(id)
  {
    if id == "" || id == "all" || id[0] == '#' {
      return id;
    }
    var i := 0;
    while i < |id|
      invariant 0 <= i <= |id|
      invariant forall k :: 0 <= k < i ==> !(id[k] == '-' && DigitsFrom(id, k + 1))
    {
      if id[i] == '-' && DigitsFrom(id, i + 1) {
        StrippedAt(id, i);
        return id[..i];
      }
      i := i + 1;
    }
    StrippedSomewhere(id);
    return id;
  }

  /** The same, read from the right. */
  function Stripped(id: string): string {
    var n := DigitTail(id);
    var dash := |id| - n - 1;
    if 0 < n && 0 <= dash && id[dash] == '-' then id[..dash] else id
  }

  lemma StrippedAt(id: string, i: nat)
    requires i < |id| && id[i] == '-' && DigitsFrom(id, i + 1)
    ensures Stripped(id) == id[..i]
  {
    var n := DigitTail(id);
    assert |id| - n - 1 == i;
  }

  lemma StrippedSomewhere(id: string)
    ensures Stripped(id) == id || exists k :: 0 <= k < |id| && id[k] == '-' && DigitsFrom(id, k + 1)
  {
    var n := DigitTail(id);
    var dash := |id| - n - 1;
    if 0 < n && 0 <= dash && id[dash] == '-' {
      assert DigitsFrom(id, dash + 1);
    }
  }

  /** On valid ids both languages name the same nick; they differ only where the dash
      comes first, which no valid id has. */
  lemma ProjectIsDurableNick(id: string)
    requires id != "" && id[0] != '-'
    ensures Stripped(id) == DurableNick(id)
  {
  }

  function LiveSessionOf(nick: string): Agent -> bool {
    (a: Agent) => a.live && ValidId(a.id) && DurableNick(a.id) == nick
  }

  function IdsOf(agents: seq<Agent>): seq<string> {
    if agents == [] then [] else [agents[0].id] + IdsOf(agents[1..])
  }

  function GoSessions(agents: seq<Agent>, nick: string): seq<string> {
    StableSort(StrLeq, IdsOf(Filter(LiveSessionOf(nick), agents)))
  }

  predicate IsEntry(a: Agent, id: string, live: bool) {
    ValidId(a.id) && a.id == id && if live then a.live else a.remote
  }

  predicate Listed(agents: seq<Agent>, id: string, live: bool) {
    exists i :: 0 <= i < |agents| && IsEntry(agents[i], id, live)
  }

  function GoResolved(agents: seq<Agent>, target: string): seq<string> {
    var named := GoSessions(agents, target);
    var nick := DurableNick(target);
    if Listed(agents, target, true) then [target]
    else if named != [] then named
    else if Listed(agents, target, false) || nick == target then [target]
    else if GoSessions(agents, nick) != [] then GoSessions(agents, nick)
    else [nick]
  }

  method ProjectValid(id: string) returns (nick: string)
    requires ValidId(id)
    ensures nick == DurableNick(id)
  {
    ProjectIsDurableNick(id);
    AllHasNoPid(id);
    nick := Project(id);
  }

  lemma AllHasNoPid(id: string)
    ensures id == "all" ==> DurableNick(id) == id
  {
  }

  method LiveSessions(agents: seq<Agent>, nick: string) returns (live: seq<string>)
    ensures live == IdsOf(Filter(LiveSessionOf(nick), agents))
  {
    live := [];
    assert agents[0..] == agents;
    var i := 0;
    while i < |agents|
      invariant 0 <= i <= |agents|
      invariant live + IdsOf(Filter(LiveSessionOf(nick), agents[i..])) == IdsOf(Filter(LiveSessionOf(nick), agents))
    {
      var a := agents[i];
      assert agents[i..][1..] == agents[i + 1..];
      if a.live && ValidId(a.id) {
        var p := ProjectValid(a.id);
        if p == nick {
          live := live + [a.id];
        }
      }
      i := i + 1;
    }
  }

  lemma ListedNext(agents: seq<Agent>, i: nat, id: string, live: bool)
    requires i < |agents|
    ensures Listed(agents[..i + 1], id, live) <==> Listed(agents[..i], id, live) || IsEntry(agents[i], id, live)
    ensures IsEntry(agents[i], id, live) ==> Listed(agents, id, live)
  {
    var next := agents[..i + 1];
    if Listed(agents[..i], id, live) {
      var k :| 0 <= k < i && IsEntry(agents[..i][k], id, live);
      assert IsEntry(next[k], id, live);
    }
    if IsEntry(agents[i], id, live) {
      assert IsEntry(next[i], id, live);
    }
    if Listed(next, id, live) {
      var k :| 0 <= k < |next| && IsEntry(next[k], id, live);
      assert k < i ==> IsEntry(agents[..i][k], id, live);
    }
  }

  /** The first loop of the Go resolver, which ends early at a live entry for the target. */
  method Scan(target: string, agents: seq<Agent>) returns (found: bool, remote: bool, live: seq<string>)
    ensures found == Listed(agents, target, true)
    ensures !found ==> remote == Listed(agents, target, false)
    ensures !found ==> live == IdsOf(Filter(LiveSessionOf(target), agents))
  {
    found, remote, live := false, false, [];
    assert agents[0..] == agents;
    var i := 0;
    while i < |agents|
      invariant 0 <= i <= |agents|
      invariant !Listed(agents[..i], target, true) && remote == Listed(agents[..i], target, false)
      invariant live + IdsOf(Filter(LiveSessionOf(target), agents[i..])) == IdsOf(Filter(LiveSessionOf(target), agents))
      invariant !found
    {
      var a := agents[i];
      assert agents[i..][1..] == agents[i + 1..];
      ListedNext(agents, i, target, true);
      ListedNext(agents, i, target, false);
      if ValidId(a.id) {
        if a.id == target {
          if a.live {
            return true, remote, live;
          }
          remote := remote || a.remote;
        }
        var p := ProjectValid(a.id);
        if a.live && p == target {
          live := live + [a.id];
        }
      }
      i := i + 1;
    }
    assert agents[..i] == agents;
  }

  /** The Go `resolveRecipients`. */
  method ResolveRecipients(target: string, agents: seq<Agent>) returns (to: seq<string>)
    requires ValidId(target)
    ensures to == GoResolved(agents, target)
  {
    var found, remote, live := Scan(target, agents);
    if found {
      return [target];
    }
    SortMultiset(StrLeq, live);
    if |live| > 0 {
      return StableSort(StrLeq, live);
    }
    var nick := ProjectValid(target);
    if remote || nick == target {
      return [target];
    }
    live := LiveSessions(agents, nick);
    SortMultiset(StrLeq, live);
    if |live| > 0 {
      return StableSort(StrLeq, live);
    }
    return [nick];
  }

  // ----- the two agree -----

  /** The Go snapshot's agents: the live sessions, then the remote roster less those. */
  ghost predicate RosterOf(agents: seq<Agent>, live: seq<string>, remote: set<string>) {
    && (forall i, j :: 0 <= i < j < |agents| ==> agents[i].id != agents[j].id)
    && (forall a :: a in agents ==> ValidId(a.id) && a.live != a.remote)
    && (forall id :: Agent(id, true, false) in agents <==> id in live)
    && (forall id :: Agent(id, false, true) in agents <==> id in remote && id !in live && ValidId(id))
  }

  /** Two duplicate-free lists of the same names sort to the same list. */
  lemma SortedAlike(a: seq<string>, b: seq<string>)
    requires Distinct(a) && Distinct(b) && forall x :: x in a <==> x in b
    ensures StableSort(StrLeq, a) == StableSort(StrLeq, b)
  {
    forall x ensures multiset(a)[x] == multiset(b)[x] {
      DistinctCount(a, x);
      DistinctCount(b, x);
    }
    assert multiset(a) == multiset(b);
    SortsAlike(a, b);
  }

  lemma SortsAlike(a: seq<string>, b: seq<string>)
    requires multiset(a) == multiset(b)
    ensures StableSort(StrLeq, a) == StableSort(StrLeq, b)
  {
    StrLeqPreorder();
    SortMultiset(StrLeq, a);
    SortMultiset(StrLeq, b);
    SortSorted(StrLeq, a);
    SortSorted(StrLeq, b);
    forall x, y | StrLeq(x, y) && StrLeq(y, x) ensures x == y { StrLeqTotal(x, y); }
    SortedUnique(StrLeq, StableSort(StrLeq, a), StableSort(StrLeq, b));
  }

  lemma {:induction false} IdsOfAt(agents: seq<Agent>)
    ensures |IdsOf(agents)| == |agents| && forall i :: 0 <= i < |agents| ==> IdsOf(agents)[i] == agents[i].id
  {
    if agents != [] {
      IdsOfAt(agents[1..]);
    }
  }

  lemma {:induction false} DistinctAgents(p: Agent -> bool, agents: seq<Agent>)
    requires forall i, j :: 0 <= i < j < |agents| ==> agents[i].id != agents[j].id
    ensures Distinct(IdsOf(Filter(p, agents)))
  {
    if agents != [] {
      DistinctAgents(p, agents[1..]);
      FilterElements(p, agents[1..]);
      var rest := Filter(p, agents[1..]);
      IdsOfAt(rest);
      forall i | 0 <= i < |rest| ensures rest[i].id != agents[0].id {
        assert rest[i] in rest;
      }
    }
  }

  lemma SessionsAgree(agents: seq<Agent>, live: seq<string>, remote: set<string>, nick: string)
    requires RosterOf(agents, live, remote) && Distinct(live)
    ensures GoSessions(agents, nick) == SortedSessions(live, nick)
  {
    var p := LiveSessionOf(nick);
    var mine, theirs := IdsOf(Filter(p, agents)), Filter(SessionsOf(nick), live);
    DistinctAgents(p, agents);
    DistinctFilter(SessionsOf(nick), live);
    FilterElements(p, agents);
    FilterElements(SessionsOf(nick), live);
    IdsOfAt(Filter(p, agents));
    forall id ensures id in mine <==> id in theirs {
      if id in mine {
        var i :| 0 <= i < |mine| && mine[i] == id;
        var a := Filter(p, agents)[i];
        assert a in agents && a == Agent(id, true, false);
      }
      if id in theirs {
        var a := Agent(id, true, false);
        assert a in Filter(p, agents);
        var i :| 0 <= i < |mine| && Filter(p, agents)[i] == a;
        assert mine[i] == id;
      }
    }
    SortedAlike(mine, theirs);
  }

  /** The two resolvers return the same list for every valid target. */
  lemma ResolversAgree(agents: seq<Agent>, live: seq<string>, remote: set<string>, target: string)
    requires RosterOf(agents, live, remote) && Distinct(live) && ValidId(target)
    ensures GoResolved(agents, target) == Resolve(live, remote, target)
  {
    SessionsAgree(agents, live, remote, target);
    SessionsAgree(agents, live, remote, DurableNick(target));
    assert Listed(agents, target, true) <==> target in live by {
      if target in live {
        assert Agent(target, true, false) in agents;
      }
      if Listed(agents, target, true) {
        var i :| 0 <= i < |agents| && IsEntry(agents[i], target, true);
        assert agents[i] == Agent(target, true, false);
      }
    }
    assert target !in live ==> (Listed(agents, target, false) <==> target in remote) by {
      if target !in live && target in remote {
        assert Agent(target, false, true) in agents;
      }
      if target !in live && Listed(agents, target, false) {
        var i :| 0 <= i < |agents| && IsEntry(agents[i], target, false);
        assert agents[i] == Agent(target, false, true);
      }
    }
  }

  // ----- what a resolution is -----

  /** All live sessions of one nick. */
  ghost predicate AllSessions(to: seq<string>, live: seq<string>, nick: string) {
    forall id :: id in to <==> id in live && DurableNick(id) == nick
  }

  /** A resolution is never empty and names no inbox twice; with more than one entry it is
      all live sessions of one nick, the target or the nick behind it. */
  lemma ResolutionShape(live: seq<string>, remote: set<string>, target: string)
    requires Distinct(live)
    ensures
      var to := Resolve(live, remote, target);
      && to != [] && Distinct(to)
      && (|to| > 1 ==> AllSessions(to, live, target) || AllSessions(to, live, DurableNick(target)))
  {
    var nick := DurableNick(target);
    forall n ensures AllSessions(SortedSessions(live, n), live, n) && Distinct(SortedSessions(live, n)) {
      FilterElements(SessionsOf(n), live);
      SortMultiset(StrLeq, Filter(SessionsOf(n), live));
      DistinctFilter(SessionsOf(n), live);
      DistinctPermuted(Filter(SessionsOf(n), live), SortedSessions(live, n));
    }
  }

  ghost predicate HasSession(live: seq<string>, nick: string) {
    exists id :: id in live && DurableNick(id) == nick
  }

  lemma SessionsFound(live: seq<string>, nick: string)
    requires Distinct(live)
    ensures AllSessions(SortedSessions(live, nick), live, nick) && SortedBy(StrLeq, SortedSessions(live, nick))
    ensures SortedSessions(live, nick) != [] <==> HasSession(live, nick)
  {
    var found := Filter(SessionsOf(nick), live);
    FilterElements(SessionsOf(nick), live);
    SortMultiset(StrLeq, found);
    StrLeqPreorder();
    SortSorted(StrLeq, found);
    if found != [] {
      assert found[0] in found;
    }
    if SortedSessions(live, nick) != [] {
      assert SortedSessions(live, nick)[0] in SortedSessions(live, nick);
    }
  }

  /** Whom a target reaches: itself if it is live; else all its live sessions; else all those
      of its nick, unless it is listed as remote; else the one inbox where the mail waits. */
  lemma ResolutionCases(live: seq<string>, remote: set<string>, target: string)
    requires Distinct(live)
    ensures
      var to, nick := Resolve(live, remote, target), DurableNick(target);
      if target in live then to == [target]
      else if HasSession(live, target) then AllSessions(to, live, target) && SortedBy(StrLeq, to)
      else if HasSession(live, nick) && target !in remote then AllSessions(to, live, nick) && SortedBy(StrLeq, to)
      else to == [if target in remote then target else nick]
  {
    SessionsFound(live, target);
    SessionsFound(live, DurableNick(target));
  }

  // ----- what a send writes -----

  datatype Copies = Copies(to: seq<(string, string)>) | Refused

  /** Where `send_message` writes, and the `to` each copy carries: only a direct message has
      its `to` rewritten to the inbox it goes to. */
  function CopiesFor(to: string, from_: string, live: seq<string>, remote: set<string>, roster: seq<string>,
                     subscribers: string -> seq<string>): Copies
  {
    if to == "all" then Copies(Addressed(Filter(Not(from_), if roster != [] then roster else live), Some(to)))
    else if to != "" && to[0] == '#' then
      if ValidId(to[1..]) then Copies(Addressed(Filter(Not(from_), subscribers(to[1..])), Some(to))) else Refused
    else if if roster == [] then ValidId(to) else to in roster then Copies(Addressed(Resolve(live, remote, to), None))
    else Refused
  }

  function Not(id: string): string -> bool { (x: string) => x != id }

  function Addressed(inboxes: seq<string>, to: Option<string>): seq<(string, string)> {
    if inboxes == [] then []
    else [(inboxes[0], if to.Some? then to.value else inboxes[0])] + Addressed(inboxes[1..], to)
  }

  lemma {:induction false} AddressedToItself(inboxes: seq<string>)
    ensures |Addressed(inboxes, None)| == |inboxes|
    ensures forall i :: 0 <= i < |inboxes| ==> Addressed(inboxes, None)[i] == (inboxes[i], inboxes[i])
  {
    if inboxes != [] {
      AddressedToItself(inboxes[1..]);
    }
  }

  lemma {:induction false} AddressedLiterally(inboxes: seq<string>, to: string)
    ensures |Addressed(inboxes, Some(to))| == |inboxes|
    ensures forall i :: 0 <= i < |inboxes| ==> Addressed(inboxes, Some(to))[i] == (inboxes[i], to)
  {
    if inboxes != [] {
      AddressedLiterally(inboxes[1..], to);
    }
  }

  /** A send is refused for a target that is no valid id, or not on the roster if there is one,
      and for a channel without a valid name. A direct message is written to the inboxes it
      resolves to, every copy naming the one it lies in; a broadcast keeps its `to` and reaches
      the roster, or without one whoever is live, and a post the channel's subscribers, all but
      the sender. */
  lemma CopiesShape(to: string, from_: string, live: seq<string>, remote: set<string>, roster: seq<string>,
                    subscribers: string -> seq<string>)
    requires Distinct(live)
    ensures
      var c := CopiesFor(to, from_, live, remote, roster, subscribers);
      var post := to != "" && to[0] == '#';
      && (c.Refused? <==>
            (to != "all" && if post then !ValidId(to[1..]) else if roster == [] then !ValidId(to) else to !in roster))
      && (c.Copies? ==>
            if to == "all" || post then
              && (forall i :: 0 <= i < |c.to| ==> c.to[i].1 == to)
              && forall x :: (x, to) in c.to <==>
                   x != from_ && x in if post then subscribers(to[1..]) else if roster != [] then roster else live
            else
              && |c.to| == |Resolve(live, remote, to)| > 0
              && forall i :: 0 <= i < |c.to| ==> c.to[i].1 == c.to[i].0 == Resolve(live, remote, to)[i])
  {
    var pool :=
      if to != "" && to[0] == '#' then subscribers(to[1..]) else if roster != [] then roster else live;
    var kept := Filter(Not(from_), pool);
    FilterElements(Not(from_), pool);
    AddressedLiterally(kept, to);
    AddressedToItself(Resolve(live, remote, to));
    ResolutionShape(live, remote, to);
    var copies := Addressed(kept, Some(to));
    forall x ensures (x, to) in copies <==> x in kept {
      if (x, to) in copies {
        var i :| 0 <= i < |copies| && copies[i] == (x, to);
        assert kept[i] == x;
      }
      if x in kept {
        var i :| 0 <= i < |kept| && kept[i] == x;
        assert copies[i] == (x, to);
      }
    }
  }

  /** A target with no live session, of its own or of its nick, resolves to one inbox. */
  lemma OfflineResolvesOnce(live: seq<string>, remote: set<string>, target: string)
    requires target !in live && Filter(SessionsOf(target), live) == [] &&
      Filter(SessionsOf(DurableNick(target)), live) == []
    ensures Resolve(live, remote, target) == [if target in remote then target else DurableNick(target)]
  {
  }
}
