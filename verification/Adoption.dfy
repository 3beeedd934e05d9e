/** One adoption in the protocol of `Inheritance`, step by step: whenever a session may adopt
    from an inbox, there is a run in which it does. */
module Adoption {
  import opened Ids
  import opened Messages
  import opened Inheritance
  import Sweeps

  lemma Then(w: World, s: Step, next: World, rest: seq<Step>, w': World)
    requires Enabled(w, s) && Apply(w, s) == next && Reaches(next, rest, w')
    ensures Reaches(w, [s] + rest, w')
  {
    assert ([s] + rest)[1..] == rest;
  }

  /** The states of one adoption by `owner` of file `n` in `donor`: the mail waits, the session
      has listed it, holds it, has claimed it, has tagged it. */
  function Waits(w: World, owner: string, donor: string, n: string, m: Msg): World {
    w.(files := map[Loc(donor, n) := m], live := {owner}, dirs := w.dirs + {donor} + {owner},
       ever := w.ever + {donor} + {owner}, nicks := w.nicks + {DurableNick(owner)},
       trail := map[n := [donor]], sent := map[n := m])
  }

  function Sweeping(w: World, owner: string, donor: string, n: string, names: seq<string>, at: Phase): World {
    w.(sweeps := map[0 := Sweep(owner, donor, [n], names, {}, at)])
  }

  function Claimed(w: World, owner: string, donor: string, n: string, m: Msg): World {
    w.(files := map[Loc(owner, n) := m], trail := map[n := [donor] + [owner]])
  }

  lemma Moved(src: Loc, dest: Loc, m: Msg)
    ensures (map[src := m] - {src})[dest := m] == map[dest := m]
  {
  }

  lemma Replaced<K, V>(k: K, a: V, b: V)
    ensures map[k := a][k := b] == map[k := b]
  {
  }

  lemma RenameMoves(w: World, owner: string, donor: string, n: string, m: Msg)
    ensures
      var holding := Sweeping(Waits(w, owner, donor, n, m), owner, donor, n, [n], Holding(m));
      && Enabled(holding, Rename(0))
      && Apply(holding, Rename(0)) ==
        Sweeping(Claimed(Waits(w, owner, donor, n, m), owner, donor, n, m), owner, donor, n, [n], Gap(m))
  {
    Moved(Loc(donor, n), Loc(owner, n), m);
    Replaced(n, [donor], [donor] + [owner]);
    Replaced(0, Sweep(owner, donor, [n], [n], {}, Holding(m)), Sweep(owner, donor, [n], [n], {}, Gap(m)));
    var none: set<string> := {};
    assert none - {n} == none;
  }

  lemma RewriteTags(w: World, owner: string, donor: string, n: string, m: Msg)
    ensures
      var waits := Waits(w, owner, donor, n, m);
      var gap := Sweeping(Claimed(waits, owner, donor, n, m), owner, donor, n, [n], Gap(m));
      && Enabled(gap, Rewrite(0))
      && Apply(gap, Rewrite(0)) ==
        Sweeping(Claimed(waits, owner, donor, n, Tagged(m, donor)), owner, donor, n, [], Inheritance.Next)
  {
    assert [n][1..] == [];
    Replaced(Loc(owner, n), m, Tagged(m, donor));
    Replaced(0, Sweep(owner, donor, [n], [n], {}, Gap(m)), Sweep(owner, donor, [n], [], {}, Inheritance.Next));
  }

  lemma ReadHolds(w: World, owner: string, donor: string, n: string, m: Msg)
    requires m.state == Pending
    ensures
      var waits := Waits(w, owner, donor, n, m);
      var listed := Sweeping(waits, owner, donor, n, [n], Inheritance.Next);
      Enabled(listed, ReadFile(0)) && Apply(listed, ReadFile(0)) == Sweeping(waits, owner, donor, n, [n], Holding(m))
  {
  }

  lemma WaitingMailIsWritten(w: World, owner: string, donor: string, n: string, m: Msg)
    requires Initial(w) && m.state == Pending && m.readAt == 0 && m.expiredAt == 0 && m.inheritedFrom == None
    requires donor != owner && owner !in w.ever
    ensures Reaches(w, [Send(donor, n, m)] + ([Start(owner)] + []), Waits(w, owner, donor, n, m))
  {
    var sent, waits := Apply(w, Send(donor, n, m)), Waits(w, owner, donor, n, m);
    Then(sent, Start(owner), waits, [], waits);
    Then(w, Send(donor, n, m), sent, [Start(owner)] + [], waits);
  }

  lemma WaitingMailIsAdopted(w: World, owner: string, donor: string, n: string, m: Msg)
    requires Initial(w) && IsSource(owner, donor) && donor !in w.remote && m.state == Pending
    ensures Reaches(Waits(w, owner, donor, n, m),
              [List(0, owner, donor, [n])] + ([ReadFile(0)] + ([Rename(0)] + ([Rewrite(0)] + []))),
              Sweeping(Claimed(Waits(w, owner, donor, n, m), owner, donor, n, Tagged(m, donor)), owner, donor, n, [],
                Inheritance.Next))
  {
    var waits := Waits(w, owner, donor, n, m);
    var listed, holding :=
      Sweeping(waits, owner, donor, n, [n], Inheritance.Next), Sweeping(waits, owner, donor, n, [n], Holding(m));
    var gap := Sweeping(Claimed(waits, owner, donor, n, m), owner, donor, n, [n], Gap(m));
    var done := Sweeping(Claimed(waits, owner, donor, n, Tagged(m, donor)), owner, donor, n, [], Inheritance.Next);
    RewriteTags(w, owner, donor, n, m);
    Then(gap, Rewrite(0), done, [], done);
    RenameMoves(w, owner, donor, n, m);
    Then(holding, Rename(0), gap, [Rewrite(0)] + [], done);
    ReadHolds(w, owner, donor, n, m);
    Then(listed, ReadFile(0), holding, [Rename(0)] + ([Rewrite(0)] + []), done);
    Then(waits, List(0, owner, donor, [n]), listed, [ReadFile(0)] + ([Rename(0)] + ([Rewrite(0)] + [])), done);
  }

  lemma {:induction false} ReachesBoth(w: World, a: seq<Step>, mid: World, b: seq<Step>, w': World)
    requires Reaches(w, a, mid) && Reaches(mid, b, w')
    ensures Reaches(w, a + b, w')
    decreases |a|
  {
    if a == [] {
      assert a + b == b;
    } else {
      assert (a + b)[1..] == a[1..] + b;
      ReachesBoth(Apply(w, a[0]), a[1..], mid, b, w');
    }
  }

  /** Adoption happens: for every session, source and message there is a run in which the
      message is written to the source and ends, tagged, in the session's inbox alone. */
  lemma AdoptionHappens(w: World, owner: string, donor: string, n: string, m: Msg) returns (run: seq<Step>, w': World)
    requires Initial(w) && m.state == Pending && m.readAt == 0 && m.expiredAt == 0 && m.inheritedFrom == None
    requires IsSource(owner, donor) && owner !in w.ever && donor !in w.remote
    ensures Reaches(w, run, w')
    ensures w'.trail == map[n := [donor] + [owner]]
    ensures w'.files == map[Loc(owner, n) := m.(inheritedFrom := Some(donor))]
  {
    var a := [Send(donor, n, m)] + ([Start(owner)] + []);
    var b := [List(0, owner, donor, [n])] + ([ReadFile(0)] + ([Rename(0)] + ([Rewrite(0)] + [])));
    WaitingMailIsWritten(w, owner, donor, n, m);
    WaitingMailIsAdopted(w, owner, donor, n, m);
    w' := Sweeping(Claimed(Waits(w, owner, donor, n, m), owner, donor, n, Tagged(m, donor)), owner, donor, n, [],
      Inheritance.Next);
    ReachesBoth(w, a, Waits(w, owner, donor, n, m), b, w');
    run := a + b;
  }

  /** And on the way the session has claimed the file but not yet tagged it, so that deleting
      it there is undone: from every empty world such a state is reached. */
  lemma GapReached(w: World, owner: string, donor: string, n: string, m: Msg) returns (run: seq<Step>, w': World)
    requires Initial(w) && m.state == Pending && m.readAt == 0 && m.expiredAt == 0 && m.inheritedFrom == None
    requires IsSource(owner, donor) && owner !in w.ever && donor !in w.remote
    ensures Reaches(w, run, w') && Inv(w') && OwnFile(w', Loc(owner, n)) && InGap(w', Loc(owner, n))
    ensures ComesBack(w', Loc(owner, n))
  {
    var a, b :=
      [Send(donor, n, m)] + ([Start(owner)] + []), [List(0, owner, donor, [n])] + ([ReadFile(0)] + ([Rename(0)] + []));
    var waits := Waits(w, owner, donor, n, m);
    var listed := Sweeping(waits, owner, donor, n, [n], Inheritance.Next);
    var holding := Sweeping(waits, owner, donor, n, [n], Holding(m));
    w' := Sweeping(Claimed(waits, owner, donor, n, m), owner, donor, n, [n], Gap(m));
    RenameMoves(w, owner, donor, n, m);
    Then(holding, Rename(0), w', [], w');
    ReadHolds(w, owner, donor, n, m);
    Then(listed, ReadFile(0), holding, [Rename(0)] + [], w');
    Then(waits, List(0, owner, donor, [n]), listed, [ReadFile(0)] + ([Rename(0)] + []), w');
    WaitingMailIsWritten(w, owner, donor, n, m);
    ReachesBoth(w, a, waits, b, w');
    run := a + b;
    RunKeeps(w, run, w');
    assert GapAt(w'.sweeps[0], Loc(owner, n));
    DeletionUndoneIff(w', Loc(owner, n));
  }

  // ----- a session that adopts nothing -----

  /** The owner's empty inbox has been reaped, and another session is up. */
  function Bereft(w: World, owner: string, donor: string, n: string, m: Msg, other: string): World {
    var waits := Waits(w, owner, donor, n, m);
    waits.(live := {owner} + {other}, dirs := waits.dirs - {owner} + {other}, ever := waits.ever + {other},
           nicks := waits.nicks + {DurableNick(other)})
  }

  /** The sweep is over, and the one message it listed was refused. */
  function Missed(w: World, owner: string, donor: string, n: string): World {
    w.(sweeps := map[0 := Sweep(owner, donor, [n], [], {n}, Inheritance.Next)])
  }

  lemma ReapedByStart(w: World, owner: string, donor: string, n: string, m: Msg, other: string)
    requires HasPid(owner) && donor != owner && owner !in w.nicks && other != owner && other !in w.ever + {donor}
    ensures
      var waits, bereft := Waits(w, owner, donor, n, m), Bereft(w, owner, donor, n, m, other);
      Reaches(waits, [Reap(owner)] + ([Start(other)] + []), bereft)
  {
    var waits, bereft := Waits(w, owner, donor, n, m), Bereft(w, owner, donor, n, m, other);
    var reaped := waits.(dirs := waits.dirs - {owner});
    assert Apply(reaped, Start(other)) == bereft;
    Then(reaped, Start(other), bereft, [], bereft);
    Then(waits, Reap(owner), reaped, [Start(other)] + [], bereft);
  }

  lemma RenameRefused(w: World, owner: string, donor: string, n: string, m: Msg)
    requires Loc(donor, n) in w.files && owner !in w.dirs
    ensures
      var holding := Sweeping(w, owner, donor, n, [n], Holding(m));
      Enabled(holding, Rename(0)) && Apply(holding, Rename(0)) == Missed(w, owner, donor, n)
  {
    assert [n][1..] == [];
    var none: set<string> := {};
    assert none + {n} == {n};
    Replaced(0, Sweep(owner, donor, [n], [n], {}, Holding(m)), Sweep(owner, donor, [n], [], {n}, Inheritance.Next));
  }

  lemma SweepMisses(w: World, owner: string, donor: string, n: string, m: Msg)
    requires IsSource(owner, donor) && w.sweeps == map[] && w.files == map[Loc(donor, n) := m] && m.state == Pending
    requires owner in w.live && owner !in w.dirs && donor in w.dirs && donor !in w.live && donor !in w.remote
    ensures Reaches(w, [List(0, owner, donor, [n])] + ([ReadFile(0)] + ([Rename(0)] + [])), Missed(w, owner, donor, n))
  {
    var listed := Sweeping(w, owner, donor, n, [n], Inheritance.Next);
    var holding := Sweeping(w, owner, donor, n, [n], Holding(m));
    var missed := Missed(w, owner, donor, n);
    RenameRefused(w, owner, donor, n, m);
    Then(holding, Rename(0), missed, [], missed);
    Replaced(0, Sweep(owner, donor, [n], [n], {}, Inheritance.Next), Sweep(owner, donor, [n], [n], {}, Holding(m)));
    Then(listed, ReadFile(0), holding, [Rename(0)] + [], missed);
    Then(w, List(0, owner, donor, [n]), listed, [ReadFile(0)] + ([Rename(0)] + []), missed);
  }

  /** Mail is stranded beside a live heir: for every session, source and message there is a run
      in which the session starts, another start reaps its empty inbox directory, and its sweep
      goes through the source with the message still waiting there. */
  lemma MailStranded(w: World, owner: string, donor: string, n: string, m: Msg, other: string)
      returns (run: seq<Step>, w': World)
    requires Initial(w) && m.state == Pending && m.readAt == 0 && m.expiredAt == 0 && m.inheritedFrom == None
    requires IsSource(owner, donor) && owner !in w.ever && owner !in w.nicks && donor !in w.remote
    requires other != owner && other !in w.ever + {donor}
    ensures Reaches(w, run, w') && Inv(w') && owner in w'.live && owner !in w'.dirs
    ensures 0 in w'.sweeps && w'.sweeps[0].owner == owner && w'.sweeps[0].donor == donor
    ensures w'.sweeps[0].listed == [n] && w'.sweeps[0].names == [] && Sweeps.Waits(w', donor, n)
  {
    var waits, bereft := Waits(w, owner, donor, n, m), Bereft(w, owner, donor, n, m, other);
    var a, b := [Send(donor, n, m)] + ([Start(owner)] + []), [Reap(owner)] + ([Start(other)] + []);
    var c := [List(0, owner, donor, [n])] + ([ReadFile(0)] + ([Rename(0)] + []));
    w' := Missed(bereft, owner, donor, n);
    WaitingMailIsWritten(w, owner, donor, n, m);
    ReapedByStart(w, owner, donor, n, m, other);
    SweepMisses(bereft, owner, donor, n, m);
    ReachesBoth(w, a, waits, b, bereft);
    ReachesBoth(w, a + b, bereft, c, w');
    run := a + b + c;
    RunKeeps(w, run, w');
  }
}
