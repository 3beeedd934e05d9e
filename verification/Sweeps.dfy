/** What the racing sweeps of `Inheritance` can miss, and a session that has lost its inbox
    directory (server.py). */
module Sweeps {
  import opened Messages
  import opened Inheritance

  // ----- what a finished sweep can have missed -----

  /** The message waits in the donor's inbox. */
  predicate Waits(w: World, donor: string, n: string) {
    Loc(donor, n) in w.files && w.files[Loc(donor, n)].state == Pending
  }

  /** The sweep is past a name only if its file has left the donor, is no longer pending, or
      could not be claimed. */
  ghost predicate Swept(w: World, s: Sweep) {
    forall n :: n in s.listed ==> n in w.trail && (n in s.names || n in s.refused || !Waits(w, s.donor, n))
  }

  ghost predicate AllSwept(w: World) { forall k :: k in w.sweeps ==> Swept(w, w.sweeps[k]) }

  /** What left a donor's inbox, or was read there, does not wait there again. */
  lemma SettledStays(w: World, s: Step, k: nat, n: string)
    requires Inv(w) && Enabled(w, s) && k in w.sweeps && n in w.trail && !Waits(w, w.sweeps[k].donor, n)
    ensures !Waits(Apply(w, s), w.sweeps[k].donor, n)
  {
    if s.Rename? || s.Rewrite? {
      SweepsGoElsewhere(w, s.k, w.sweeps[k].donor, k);
      SettledOnClaims(w, s, w.sweeps[k].donor, n);
    } else {
      SettledOtherwise(w, s, w.sweeps[k].donor, n);
    }
  }

  lemma SweepsGoElsewhere(w: World, j: nat, donor: string, k: nat)
    requires Inv(w) && j in w.sweeps && k in w.sweeps && donor == w.sweeps[k].donor
    ensures w.sweeps[j].owner != donor
  {
    assert SweepGood(w, w.sweeps[k]) && SweepGood(w, w.sweeps[j]);
  }

  lemma SettledOnClaims(w: World, s: Step, donor: string, n: string)
    requires Enabled(w, s) && (s.Rename? || s.Rewrite?) && w.sweeps[s.k].owner != donor && !Waits(w, donor, n)
    ensures !Waits(Apply(w, s), donor, n)
  {
  }

  lemma SettledOtherwise(w: World, s: Step, donor: string, n: string)
    requires Enabled(w, s) && !s.Rename? && !s.Rewrite? && n in w.trail && !Waits(w, donor, n)
    ensures !Waits(Apply(w, s), donor, n)
  {
  }

  predicate Working(s: Step, k: nat) { (s.ReadFile? || s.Rename? || s.Rewrite?) && s.k == k }

  /** Going on to the next name leaves the first one settled, or refused. */
  lemma SkippedIsSettled(w: World, s: Step, k: nat)
    requires Inv(w) && Enabled(w, s) && Working(s, k) && k in Apply(w, s).sweeps
    requires Apply(w, s).sweeps[k].names != w.sweeps[k].names
    ensures
      var name := w.sweeps[k].names[0];
      name in Apply(w, s).sweeps[k].refused || !Waits(Apply(w, s), w.sweeps[k].donor, name)
  {
    if s.Rewrite? {
      assert SweepGood(w, w.sweeps[k]);
      GapIsElsewhere(w, w.sweeps[k]);
    } else {
      SkipTouchesNothing(w, s, k);
    }
  }

  lemma SkipTouchesNothing(w: World, s: Step, k: nat)
    requires Enabled(w, s) && (s.ReadFile? || s.Rename?) && s.k == k
    requires Apply(w, s).sweeps[k].names != w.sweeps[k].names
    ensures Apply(w, s).files == w.files
    ensures
      var name := w.sweeps[k].names[0];
      name in Apply(w, s).sweeps[k].refused || !Waits(w, w.sweeps[k].donor, name)
  {
  }

  /** A claimed file lies with its claimer alone. */
  lemma GapIsElsewhere(w: World, s: Sweep)
    requires Inv(w) && SweepGood(w, s) && s.at.Gap?
    ensures Loc(s.donor, s.names[0]) !in w.files
  {
    var mine, other := Loc(s.owner, s.names[0]), Loc(s.donor, s.names[0]);
    assert FileGood(w, mine);
    assert other in w.files ==> FileGood(w, other);
  }

  /** A rename is refused for want of the heir's directory. */
  predicate Refuses(w: World, s: Step, k: nat) {
    s == Rename(k) && AtWork(w, k)
    && Loc(w.sweeps[k].donor, w.sweeps[k].names[0]) in w.files && w.sweeps[k].owner !in w.dirs
  }

  /** What one step does to the names of a sweep. */
  lemma NamesShrink(w: World, s: Step, k: nat)
    requires Enabled(w, s) && k in w.sweeps && k in Apply(w, s).sweeps
    ensures
      var before, after := w.sweeps[k], Apply(w, s).sweeps[k];
      && after.donor == before.donor && after.owner == before.owner && after.listed == before.listed
      && (after.names == before.names || (Working(s, k) && after.names == before.names[1..]))
  {
  }

  /** A name becomes refused exactly when its rename is. */
  lemma RefusedIff(w: World, s: Step, k: nat, n: string)
    requires Enabled(w, s) && k in w.sweeps && k in Apply(w, s).sweeps && n !in w.sweeps[k].refused
    ensures n in Apply(w, s).sweeps[k].refused <==> Refuses(w, s, k) && n == w.sweeps[k].names[0]
  {
  }

  /** And it stays so until its file is claimed after all. */
  lemma RefusedStays(w: World, s: Step, k: nat, n: string)
    requires Enabled(w, s) && k in w.sweeps && k in Apply(w, s).sweeps && n in w.sweeps[k].refused
    ensures n in Apply(w, s).sweeps[k].refused || n in Apply(w, s).sweeps[k].names
  {
  }

  lemma StepKeepsSwept(w: World, s: Step)
    requires Inv(w) && AllSwept(w) && Enabled(w, s)
    ensures AllSwept(Apply(w, s))
  {
    var w' := Apply(w, s);
    forall k | k in w'.sweeps ensures Swept(w', w'.sweeps[k]) {
      if k !in w.sweeps {
        NewSweepSwept(w, s);
      } else {
        OneSweepSwept(w, s, k);
      }
    }
  }

  lemma OneSweepSwept(w: World, s: Step, k: nat)
    requires Inv(w) && Enabled(w, s) && k in w.sweeps && k in Apply(w, s).sweeps && Swept(w, w.sweeps[k])
    ensures Swept(Apply(w, s), Apply(w, s).sweeps[k])
  {
    NamesShrink(w, s, k);
    forall n | n in w.sweeps[k].listed
      ensures n in Apply(w, s).trail
      ensures n in Apply(w, s).sweeps[k].names || n in Apply(w, s).sweeps[k].refused ||
        !Waits(Apply(w, s), w.sweeps[k].donor, n)
    {
      TrailGrows(w, s, n);
      OneNameSwept(w, s, k, n);
    }
  }

  lemma OneNameSwept(w: World, s: Step, k: nat, n: string)
    requires Inv(w) && Enabled(w, s) && k in w.sweeps && k in Apply(w, s).sweeps && n in w.trail
    requires n in w.sweeps[k].names || n in w.sweeps[k].refused || !Waits(w, w.sweeps[k].donor, n)
    ensures n in Apply(w, s).sweeps[k].names || n in Apply(w, s).sweeps[k].refused ||
      !Waits(Apply(w, s), w.sweeps[k].donor, n)
  {
    if n in w.sweeps[k].names {
      NameGoesSettled(w, s, k, n);
    } else if n in w.sweeps[k].refused {
      RefusedStays(w, s, k, n);
    } else {
      SettledStays(w, s, k, n);
    }
  }

  lemma NameGoesSettled(w: World, s: Step, k: nat, n: string)
    requires Inv(w) && Enabled(w, s) && k in w.sweeps && k in Apply(w, s).sweeps && n in w.sweeps[k].names
    ensures n in Apply(w, s).sweeps[k].names || n in Apply(w, s).sweeps[k].refused ||
      !Waits(Apply(w, s), w.sweeps[k].donor, n)
  {
    NamesShrink(w, s, k);
    if Apply(w, s).sweeps[k].names != w.sweeps[k].names {
      FirstOrLater(w.sweeps[k].names, n);
      SkippedIsSettled(w, s, k);
    }
  }

  lemma FirstOrLater(names: seq<string>, n: string)
    requires n in names
    ensures n == names[0] || n in names[1..]
  {
    assert names == [names[0]] + names[1..];
  }

  lemma TrailGrows(w: World, s: Step, n: string)
    requires Enabled(w, s) && n in w.trail
    ensures n in Apply(w, s).trail
  {
  }

  lemma NewSweepSwept(w: World, s: Step)
    requires Inv(w) && Enabled(w, s)
    ensures forall k :: k in Apply(w, s).sweeps && k !in w.sweeps ==> Swept(Apply(w, s), Apply(w, s).sweeps[k])
  {
    if s.List? {
      forall n | n in s.names ensures n in w.trail {
        assert FileGood(w, Loc(s.donor, n));
      }
    }
  }

  lemma {:induction false} RunKeepsSwept(w: World, run: seq<Step>, w': World)
    requires Inv(w) && AllSwept(w) && Reaches(w, run, w')
    ensures Inv(w') && AllSwept(w')
    decreases |run|
  {
    if run != [] {
      StepKeeps(w, run[0]);
      StepKeepsSwept(w, run[0]);
      RunKeepsSwept(Apply(w, run[0]), run[1..], w');
    }
  }

  /** A racing sweep misses nothing it could claim: however sends, exits, reaps, other sweeps
      and file handling are interleaved, when a sweep is through its names, a message it listed
      waits in the donor's inbox only if its rename was refused for want of the heir's
      directory. */
  lemma SweepComplete(w: World, run: seq<Step>, w': World, k: nat, n: string)
    requires Initial(w) && Reaches(w, run, w') && k in w'.sweeps && w'.sweeps[k].names == []
    requires n in w'.sweeps[k].listed
    ensures Waits(w', w'.sweeps[k].donor, n) ==> n in w'.sweeps[k].refused
  {
    RunKeepsSwept(w, run, w');
    assert Swept(w', w'.sweeps[k]);
  }

  // ----- and exactly what it misses -----

  /** The step handles or claims this file. */
  predicate Touches(w: World, s: Step, loc: Loc) {
    || ((s.Mark? || s.Retire? || s.Remove?) && s.loc == loc)
    || (s.Rename? && AtWork(w, s.k) && loc == Loc(w.sweeps[s.k].donor, w.sweeps[s.k].names[0]))
  }

  /** The sweep goes on through the run, and nobody else touches the file meanwhile. */
  ghost predicate Alone(w: World, run: seq<Step>, w': World, k: nat, n: string)
    requires Reaches(w, run, w')
    decreases |run|
  {
    k in w.sweeps &&
    (run == [] || (
      && (Working(run[0], k) || !Touches(w, run[0], Loc(w.sweeps[k].donor, n)))
      && Alone(Apply(w, run[0]), run[1..], w', k, n)))
  }

  /** What is refused waits, and so does what the sweep holds. */
  ghost predicate Left(w: World, k: nat, n: string)
    requires k in w.sweeps
  {
    var s := w.sweeps[k];
    && (n in s.refused ==> Waits(w, s.donor, n))
    && (s.at.Holding? && s.names != [] && s.names[0] == n ==> Waits(w, s.donor, n))
  }

  lemma WaitsStays(w: World, s: Step, k: nat, n: string)
    requires Inv(w) && Enabled(w, s) && k in w.sweeps && n in w.trail && Waits(w, w.sweeps[k].donor, n)
    requires !Touches(w, s, Loc(w.sweeps[k].donor, n))
    ensures Waits(Apply(w, s), w.sweeps[k].donor, n)
  {
    if s.Rename? || s.Rewrite? {
      SweepsGoElsewhere(w, s.k, w.sweeps[k].donor, k);
      WaitsOnClaims(w, s, w.sweeps[k].donor, n);
    } else {
      WaitsOtherwise(w, s, w.sweeps[k].donor, n);
    }
  }

  lemma WaitsOnClaims(w: World, s: Step, donor: string, n: string)
    requires Enabled(w, s) && (s.Rename? || s.Rewrite?) && w.sweeps[s.k].owner != donor && Waits(w, donor, n)
    requires !Touches(w, s, Loc(donor, n))
    ensures Waits(Apply(w, s), donor, n)
  {
  }

  lemma WaitsOtherwise(w: World, s: Step, donor: string, n: string)
    requires Enabled(w, s) && !s.Rename? && !s.Rewrite? && n in w.trail && Waits(w, donor, n)
    requires !Touches(w, s, Loc(donor, n))
    ensures Waits(Apply(w, s), donor, n)
  {
  }

  lemma StepKeepsLeft(w: World, s: Step, k: nat, n: string)
    requires Inv(w) && Enabled(w, s) && k in w.sweeps && k in Apply(w, s).sweeps && n in w.trail && Left(w, k, n)
    requires Working(s, k) || !Touches(w, s, Loc(w.sweeps[k].donor, n))
    ensures Left(Apply(w, s), k, n)
  {
    NamesShrink(w, s, k);
    if Working(s, k) {
      OwnStepKeepsLeft(w, s, k, n);
    } else {
      OthersLeaveSweep(w, s, k);
      if Waits(w, w.sweeps[k].donor, n) {
        WaitsStays(w, s, k, n);
      }
    }
  }

  lemma OthersLeaveSweep(w: World, s: Step, k: nat)
    requires Enabled(w, s) && k in w.sweeps && k in Apply(w, s).sweeps && !Working(s, k)
    ensures Apply(w, s).sweeps[k] == w.sweeps[k]
  {
  }

  lemma OwnStepKeepsLeft(w: World, s: Step, k: nat, n: string)
    requires Inv(w) && Enabled(w, s) && Working(s, k) && k in Apply(w, s).sweeps && n in w.trail && Left(w, k, n)
    ensures Left(Apply(w, s), k, n)
  {
    if s.ReadFile? {
      ReadKeepsLeft(w, k, n);
    } else if s.Rewrite? {
      RewriteKeepsLeft(w, k, n);
    } else if Claims(w, k) {
      ClaimKeepsLeft(w, k, n);
    } else {
      RefusalKeepsLeft(w, k, n);
    }
  }

  lemma ReadKeepsLeft(w: World, k: nat, n: string)
    requires Enabled(w, ReadFile(k)) && Left(w, k, n)
    ensures Left(Apply(w, ReadFile(k)), k, n)
  {
  }

  lemma RewriteKeepsLeft(w: World, k: nat, n: string)
    requires Inv(w) && Enabled(w, Rewrite(k)) && k in Apply(w, Rewrite(k)).sweeps && n in w.trail && Left(w, k, n)
    ensures Left(Apply(w, Rewrite(k)), k, n)
  {
    if n in w.sweeps[k].refused {
      WaitsStays(w, Rewrite(k), k, n);
    }
  }

  lemma ClaimKeepsLeft(w: World, k: nat, n: string)
    requires Inv(w) && Enabled(w, Rename(k)) && Claims(w, k) && n in w.trail && Left(w, k, n)
    ensures Left(Apply(w, Rename(k)), k, n)
  {
    if n != w.sweeps[k].names[0] && n in w.sweeps[k].refused {
      WaitsStays(w, Rename(k), k, n);
    }
  }

  lemma RefusalKeepsLeft(w: World, k: nat, n: string)
    requires Enabled(w, Rename(k)) && !Claims(w, k) && Left(w, k, n)
    ensures Left(Apply(w, Rename(k)), k, n)
  {
    assert Apply(w, Rename(k)).files == w.files;
  }

  lemma {:induction false} RunKeepsLeft(w: World, run: seq<Step>, w': World, k: nat, n: string)
    requires Inv(w) && Reaches(w, run, w') && Alone(w, run, w', k, n) && n in w.trail && Left(w, k, n)
    ensures k in w'.sweeps && Left(w', k, n) && w'.sweeps[k].donor == w.sweeps[k].donor
    ensures w'.sweeps[k].listed == w.sweeps[k].listed
    decreases |run|
  {
    if run != [] {
      var next := Apply(w, run[0]);
      assert Alone(next, run[1..], w', k, n);
      StepKeeps(w, run[0]);
      StepKeepsLeft(w, run[0], k, n);
      NamesShrink(w, run[0], k);
      TrailGrows(w, run[0], n);
      RunKeepsLeft(next, run[1..], w', k, n);
    }
  }

  /** Exactly what a sweep misses: from its listing to its end, if nobody else touches the file
      in between, a listed message still waits in the donor's inbox if and only if its rename
      was refused because the heir's directory was gone. */
  lemma SweepMissesIff(w: World, k: nat, owner: string, donor: string, names: seq<string>, n: string,
                       run: seq<Step>, w': World)
    requires Inv(w) && AllSwept(w) && Enabled(w, List(k, owner, donor, names)) && n in names
    requires
      var listed := Apply(w, List(k, owner, donor, names));
      Reaches(listed, run, w') && Alone(listed, run, w', k, n)
    requires k in w'.sweeps && w'.sweeps[k].names == []
    ensures Waits(w', donor, n) <==> n in w'.sweeps[k].refused
  {
    var s := List(k, owner, donor, names);
    var listed := Apply(w, s);
    assert FileGood(w, Loc(donor, n));
    StepKeeps(w, s);
    StepKeepsSwept(w, s);
    RunKeepsSwept(listed, run, w');
    RunKeepsLeft(listed, run, w', k, n);
    assert Swept(w', w'.sweeps[k]);
  }

  // ----- whose mail is left alone -----

  /** At every point of the run the inbox is a live session's or listed as remote. */
  ghost predicate Guarded(w: World, run: seq<Step>, w': World, inbox: string)
    requires Reaches(w, run, w')
    decreases |run|
  {
    (inbox in w.live || inbox in w.remote) && (run != [] ==> Guarded(Apply(w, run[0]), run[1..], w', inbox))
  }

  lemma GuardedStep(w: World, s: Step, inbox: string, n: string)
    requires Enabled(w, s) && (inbox in w.live || inbox in w.remote) && s != Remove(Loc(inbox, n))
    requires forall k :: k in w.sweeps ==> w.sweeps[k].donor != inbox
    ensures forall k :: k in Apply(w, s).sweeps ==> Apply(w, s).sweeps[k].donor != inbox
    ensures Loc(inbox, n) in w.files ==> Loc(inbox, n) in Apply(w, s).files
  {
  }

  /** Nobody adopts from a live session, nor from another host's: while an inbox is one of
      these and no sweep of it is under way, its files leave it only if its owner removes them. */
  lemma {:induction false} GuardedMailStays(w: World, run: seq<Step>, w': World, inbox: string, n: string)
    requires Reaches(w, run, w') && Guarded(w, run, w', inbox) && Loc(inbox, n) in w.files
    requires forall k :: k in w.sweeps ==> w.sweeps[k].donor != inbox
    requires Remove(Loc(inbox, n)) !in run
    ensures Loc(inbox, n) in w'.files && forall k :: k in w'.sweeps ==> w'.sweeps[k].donor != inbox
    decreases |run|
  {
    if run != [] {
      assert run == [run[0]] + run[1..];
      GuardedStep(w, run[0], inbox, n);
      GuardedMailStays(Apply(w, run[0]), run[1..], w', inbox, n);
    }
  }

  /** The inbox of a registered nick is never reaped. */
  lemma {:induction false} NickInboxStays(w: World, run: seq<Step>, w': World, nick: string)
    requires Reaches(w, run, w') && nick in w.nicks && nick in w.dirs
    ensures nick in w'.nicks && nick in w'.dirs
    decreases |run|
  {
    if run != [] {
      NickInboxKept(w, run[0], nick);
      NickInboxStays(Apply(w, run[0]), run[1..], w', nick);
    }
  }

  lemma NickInboxKept(w: World, s: Step, nick: string)
    requires Enabled(w, s) && nick in w.nicks && nick in w.dirs
    ensures nick in Apply(w, s).nicks && nick in Apply(w, s).dirs
  {
  }

  // ----- an heir without a directory -----

  /** Nobody writes to this inbox. */
  predicate NoSendTo(run: seq<Step>, inbox: string) {
    forall i :: 0 <= i < |run| ==> !(run[i].Send? && run[i].inbox == inbox)
  }

  lemma GoneStays(w: World, s: Step, owner: string)
    requires Enabled(w, s) && HasPid(owner) && owner in w.ever && owner !in w.dirs
    requires !(s.Send? && s.inbox == owner)
    ensures owner in Apply(w, s).ever && owner !in Apply(w, s).dirs
  {
    if !s.Send? && !s.Start? {
      NoDirMade(w, s);
    }
  }

  lemma NoDirMade(w: World, s: Step)
    requires Runnable(w, s) && !s.Send? && !s.Start?
    ensures Apply(w, s).ever == w.ever && Apply(w, s).dirs <= w.dirs
  {
  }

  /** A live session whose inbox directory was reaped adopts nothing, in however many sweeps,
      until somebody writes to it. */
  lemma {:induction false} StrandedUntilSent(w: World, run: seq<Step>, w': World, owner: string)
    requires Inv(w) && Reaches(w, run, w') && HasPid(owner) && owner in w.live && owner !in w.dirs
    requires NoSendTo(run, owner)
    ensures owner !in w'.dirs && Empty(w', owner)
  {
    GoneThroughRun(w, run, w', owner);
    RunKeeps(w, run, w');
    forall l | l in w'.files ensures l.inbox != owner {
      assert FileGood(w', l);
    }
  }

  lemma {:induction false} GoneThroughRun(w: World, run: seq<Step>, w': World, owner: string)
    requires Inv(w) && Reaches(w, run, w') && HasPid(owner) && owner in w.ever && owner !in w.dirs
    requires NoSendTo(run, owner)
    ensures owner !in w'.dirs
    decreases |run|
  {
    if run != [] {
      StepKeeps(w, run[0]);
      assert !(run[0].Send? && run[0].inbox == owner);
      GoneStays(w, run[0], owner);
      GoneThroughRun(Apply(w, run[0]), run[1..], w', owner);
    }
  }
}
