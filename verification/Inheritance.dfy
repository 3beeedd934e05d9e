/** Inbox inheritance: sessions of one nick racing to adopt the mail of dead ones
    (server.py). A sweep is split into its list, read, rename and rewrite steps, and any
    number of sweeps run interleaved with sends, session starts and exits, and with the reaping
    of empty inbox directories, live sessions' ones too, that precedes every start. */
module Inheritance {
  import opened Ids
  import opened Messages

  datatype Loc = Loc(inbox: string, name: string)

  type Files = map<Loc, Msg>

  /** An id that ends in a process id; the others keep their inbox across restarts. */
  predicate HasPid(id: string) { DurableNick(id) != id }

  /** The inboxes a session adopts from: a sibling session's, or the nick's own. */
  predicate IsSource(owner: string, donor: string) {
    && HasPid(owner) && donor != owner
    && (IsSessionOf(DurableNick(owner), donor) || donor == DurableNick(owner))
  }

  datatype Phase = Next | Holding(msg: Msg) | Gap(msg: Msg)

  /** A sweep of one donor inbox: the names it listed and has not finished, and how far it
      is with the first of them. `listed`, all it listed, and `refused`, the names whose last
      rename failed because the heir's directory was gone, are bookkeeping for the theorems. */
  datatype Sweep = Sweep(
    owner: string, donor: string, listed: seq<string>, names: seq<string>, refused: set<string>, at: Phase)

  /** `dirs` are the inbox directories there are, `nicks` the registered nicks. `trail` records
      every inbox a file has been in, oldest first, `sent` what was first written, and `ever`
      every directory there has been; these are bookkeeping for the theorems. */
  datatype World = World(
    files: Files, live: set<string>, dirs: set<string>, nicks: set<string>, remote: set<string>,
    sweeps: map<nat, Sweep>, trail: map<string, seq<string>>, sent: map<string, Msg>, removed: set<string>,
    ever: set<string>)

  datatype Step =
    | Send(inbox: string, name: string, msg: Msg)
    | Start(id: string)
    | Exit(id: string)
    | Reap(inbox: string)
    | Roster(remote: set<string>)
    | List(k: nat, owner: string, donor: string, names: seq<string>)
    | ReadFile(k: nat)
    | Rename(k: nat)
    | Rewrite(k: nat)
    | Finish(k: nat)
    | Mark(loc: Loc, now: int)
    | Retire(loc: Loc, now: int)
    | Remove(loc: Loc)

  ghost predicate InGap(w: World, loc: Loc) {
    exists k :: k in w.sweeps && GapAt(w.sweeps[k], loc)
  }

  predicate GapAt(s: Sweep, loc: Loc) {
    s.at.Gap? && s.names != [] && loc == Loc(s.owner, s.names[0])
  }

  predicate AtWork(w: World, k: nat) { k in w.sweeps && w.sweeps[k].names != [] }

  /** A session handles a file in its own inbox. */
  predicate OwnFile(w: World, loc: Loc) { loc in w.files && loc.inbox in w.live }

  predicate Runnable(w: World, s: Step) {
    && (s.ReadFile? || s.Rename? || s.Rewrite? ==> AtWork(w, s.k))
    && (s.Rename? ==> w.sweeps[s.k].at.Holding?)
    && (s.Rewrite? ==> w.sweeps[s.k].at.Gap?)
    && (s.Mark? || s.Retire? || s.Remove? ==> OwnFile(w, s.loc))
  }

  ghost predicate Empty(w: World, inbox: string) { forall l :: l in w.files ==> l.inbox != inbox }

  ghost predicate Enabled(w: World, s: Step) {
    Runnable(w, s) &&
    match s
    case Send(inbox, name, msg) =>
      name !in w.trail && msg.state == Pending && msg.readAt == 0 && msg.expiredAt == 0 && msg.inheritedFrom == None
    case Start(id) => id !in w.live && (HasPid(id) ==> id !in w.ever)
    case Exit(id) => id in w.live
    case Reap(inbox) => inbox in w.dirs && inbox !in w.nicks && Empty(w, inbox)
    case Roster(remote) => true
    case List(k, owner, donor, names) =>
      && k !in w.sweeps && owner in w.live && IsSource(owner, donor)
      && donor in w.dirs && donor !in w.live && donor !in w.remote
      && forall n :: n in names <==> Loc(donor, n) in w.files
    case ReadFile(k) => w.sweeps[k].at == Next
    case Rename(k) => true
    case Rewrite(k) => true
    case Finish(k) => k in w.sweeps && w.sweeps[k].names == []
    case Mark(loc, now) => !InGap(w, loc)
    case Retire(loc, now) => w.files[loc].state == Pending && !InGap(w, loc)
    case Remove(loc) => !InGap(w, loc)
  }

  /** On to the next name. */
  function Skip(s: Sweep): Sweep
    requires s.names != []
  {
    s.(names := s.names[1..], at := Next)
  }

  function TryRead(w: World, s: Sweep): Sweep
    requires s.names != []
  {
    var src := Loc(s.donor, s.names[0]);
    if src in w.files && w.files[src].state == Pending then s.(at := Holding(w.files[src])) else Skip(s)
  }

  /** The claim: the loser of a race finds the file gone and moves on, and so does an heir
      whose own directory is gone. */
  function TryRename(w: World, k: nat): World
    requires AtWork(w, k) && w.sweeps[k].at.Holding?
  {
    var s := w.sweeps[k];
    var name := s.names[0];
    var src, dest := Loc(s.donor, name), Loc(s.owner, name);
    if src !in w.files then Skipped(w, k)
    else if s.owner !in w.dirs then w.(sweeps := w.sweeps[k := Skip(s.(refused := s.refused + {name}))])
    else
      w.(files := (w.files - {src})[dest := w.files[src]],
         sweeps := w.sweeps[k := s.(at := Gap(s.at.msg), refused := s.refused - {name})],
         trail := w.trail[name := (if name in w.trail then w.trail[name] else []) + [s.owner]])
  }

  function Tagged(m: Msg, donor: string): Msg { m.(inheritedFrom := Some(donor)) }

  function Written(w: World, loc: Loc, m: Msg): World { w.(files := w.files[loc := m]) }

  function Removed(w: World, loc: Loc): World {
    w.(files := w.files - {loc}, removed := w.removed + {loc.name})
  }

  function Skipped(w: World, k: nat): World
    requires AtWork(w, k)
  {
    w.(sweeps := w.sweeps[k := Skip(w.sweeps[k])])
  }

  /** Tagging the claimed copy, from the content read before the claim. */
  function Rewritten(w: World, k: nat): World
    requires AtWork(w, k) && w.sweeps[k].at.Gap?
  {
    var s := w.sweeps[k];
    Skipped(Written(w, Loc(s.owner, s.names[0]), Tagged(s.at.msg, s.donor)), k)
  }

  /** A rewrite into a missing directory raises, which ends the sweep. */
  function TryRewrite(w: World, k: nat): World
    requires AtWork(w, k) && w.sweeps[k].at.Gap?
  {
    if w.sweeps[k].owner in w.dirs then Rewritten(w, k) else w.(sweeps := w.sweeps - {k})
  }

  function Apply(w: World, s: Step): World
    requires Runnable(w, s)
  {
    match s
    case Send(inbox, name, msg) =>
      w.(files := w.files[Loc(inbox, name) := msg], dirs := w.dirs + {inbox}, ever := w.ever + {inbox},
         trail := w.trail[name := [inbox]], sent := w.sent[name := msg])
    case Start(id) =>
      w.(live := w.live + {id}, dirs := w.dirs + {id}, ever := w.ever + {id}, nicks := w.nicks + {DurableNick(id)})
    case Exit(id) =>
      w.(live := w.live - {id}, sweeps := map k | k in w.sweeps && w.sweeps[k].owner != id :: w.sweeps[k])
    case Reap(inbox) => w.(dirs := w.dirs - {inbox})
    case Roster(remote) => w.(remote := remote)
    case List(k, owner, donor, names) => w.(sweeps := w.sweeps[k := Sweep(owner, donor, names, names, {}, Next)])
    case ReadFile(k) => w.(sweeps := w.sweeps[k := TryRead(w, w.sweeps[k])])
    case Rename(k) => TryRename(w, k)
    case Rewrite(k) => TryRewrite(w, k)
    case Finish(k) => w.(sweeps := w.sweeps - {k})
    case Mark(loc, now) => Written(w, loc, Marked(w.files[loc], now))
    case Retire(loc, now) => Written(w, loc, Tombstone(w.files[loc], now))
    case Remove(loc) => Removed(w, loc)
  }

  // ----- the invariant -----

  function Last(t: seq<string>): string
    requires t != []
  {
    t[|t| - 1]
  }

  /** Where a file has been: no inbox twice, and the ones it left are closed for good. */
  ghost predicate GoodTrail(w: World, t: seq<string>) {
    && t != []
    && (forall i, j :: 0 <= i < j < |t| ==> t[i] != t[j])
    && (forall i :: 0 <= i < |t| ==> t[i] in w.ever)
    && (forall i :: 0 <= i < |t| - 1 && HasPid(t[i]) ==> t[i] !in w.live)
  }

  ghost predicate TrailGood(w: World, n: string)
    requires n in w.trail
  {
    GoodTrail(w, w.trail[n]) && n in w.sent && (n in w.removed || Loc(Last(w.trail[n]), n) in w.files)
  }

  ghost predicate TrailsGood(w: World) { forall n :: n in w.trail ==> TrailGood(w, n) }

  /** What may be in a file: what was sent, read or not, tagged or not, or its tombstone. */
  predicate Faithful(m: Msg, sent: Msg) {
    || (m.state != Expired && m.(state := Pending, readAt := 0, inheritedFrom := None) == sent)
    || (m.state == Expired && m == Tombstone(sent, m.expiredAt))
  }

  ghost predicate FileGood(w: World, l: Loc)
    requires l in w.files
  {
    && l.name in w.trail && w.trail[l.name] != [] && l.inbox == Last(w.trail[l.name])
    && l.inbox in w.dirs && l.name !in w.removed && l.name in w.sent && Faithful(w.files[l], w.sent[l.name])
  }

  ghost predicate FilesGood(w: World) { forall l :: l in w.files ==> FileGood(w, l) }

  ghost predicate SweepGood(w: World, s: Sweep) {
    && s.owner in w.live && s.donor in w.ever && HasPid(s.owner) && s.donor != s.owner
    && (HasPid(s.donor) ==> s.donor !in w.live)
    && (s.at.Next? || (
          && s.names != [] && s.names[0] in w.sent
          && s.at.msg.state == Pending && Faithful(s.at.msg, w.sent[s.names[0]])))
    && (s.at.Gap? ==> Loc(s.owner, s.names[0]) in w.files)
  }

  ghost predicate SweepsGood(w: World) {
    forall k :: k in w.sweeps ==> SweepGood(w, w.sweeps[k])
  }

  ghost predicate Inv(w: World) {
    && TrailsGood(w) && FilesGood(w) && SweepsGood(w)
    && (forall n :: n in w.sent ==> n in w.trail && w.sent[n].state == Pending)
    && (forall n :: n in w.removed ==> n in w.trail)
    && w.live <= w.ever && w.dirs <= w.ever
  }

  lemma SendKeeps(w: World, inbox: string, name: string, msg: Msg)
    requires Inv(w) && Enabled(w, Send(inbox, name, msg))
    ensures Inv(Apply(w, Send(inbox, name, msg)))
  {
    var w' := Apply(w, Send(inbox, name, msg));
    forall n | n in w'.trail ensures TrailGood(w', n) {
      assert n in w.trail ==> TrailGood(w, n);
    }
    forall l | l in w'.files ensures FileGood(w', l) {
      assert l in w.files ==> FileGood(w, l);
    }
    forall k | k in w'.sweeps ensures SweepGood(w', w'.sweeps[k]) {
      assert SweepGood(w, w.sweeps[k]);
    }
  }

  lemma GrownTrail(w: World, t: seq<string>, owner: string)
    requires GoodTrail(w, t) && HasPid(owner) && owner in w.live && owner in w.ever && Last(t) != owner
    requires HasPid(Last(t)) ==> Last(t) !in w.live
    ensures GoodTrail(w, t + [owner])
  {
    forall i | 0 <= i < |t| ensures t[i] != owner && (HasPid(t[i]) ==> t[i] !in w.live) {
      assert i == |t| - 1 ==> t[i] == Last(t);
    }
  }

  /** A claim moves the file: its trail grows by the claimer, nothing else changes place. */
  lemma ClaimMoves(w: World, k: nat)
    requires Inv(w) && Enabled(w, Rename(k))
    requires Loc(w.sweeps[k].donor, w.sweeps[k].names[0]) in w.files && w.sweeps[k].owner in w.dirs
    ensures
      var s, w' := w.sweeps[k], Apply(w, Rename(k));
      && s.names[0] in w.trail && TrailsGood(w') && w'.trail[s.names[0]] == w.trail[s.names[0]] + [s.owner]
  {
    var s, w' := w.sweeps[k], Apply(w, Rename(k));
    var name := s.names[0];
    assert SweepGood(w, s);
    assert FileGood(w, Loc(s.donor, name)) && TrailGood(w, name);
    GrownTrail(w, w.trail[name], s.owner);
    forall n | n in w'.trail ensures TrailGood(w', n) {
      if n != name {
        assert TrailGood(w, n);
      } else {
        assert GoodTrail(w', w'.trail[n]);
      }
    }
  }

  lemma ClaimKeepsSweeps(w: World, k: nat)
    requires Inv(w) && Enabled(w, Rename(k))
    requires Loc(w.sweeps[k].donor, w.sweeps[k].names[0]) in w.files && w.sweeps[k].owner in w.dirs
    ensures SweepsGood(Apply(w, Rename(k)))
  {
    var s, w' := w.sweeps[k], Apply(w, Rename(k));
    assert SweepGood(w, s);
    forall j | j in w'.sweeps ensures SweepGood(w', w'.sweeps[j]) {
      assert SweepGood(w, w.sweeps[j]);
      assert w.sweeps[j].owner != s.donor;
    }
  }

  lemma ClaimKeepsFiles(w: World, k: nat)
    requires Inv(w) && Enabled(w, Rename(k))
    requires Loc(w.sweeps[k].donor, w.sweeps[k].names[0]) in w.files && w.sweeps[k].owner in w.dirs
    ensures FilesGood(Apply(w, Rename(k)))
  {
    var s, w' := w.sweeps[k], Apply(w, Rename(k));
    assert SweepGood(w, s);
    var src := Loc(s.donor, s.names[0]);
    assert FileGood(w, src);
    forall l | l in w'.files ensures FileGood(w', l) {
      assert l in w.files ==> FileGood(w, l);
      assert l.name == src.name ==> l == Loc(s.owner, src.name);
    }
  }

  lemma RenameKeeps(w: World, k: nat)
    requires Inv(w) && Enabled(w, Rename(k))
    ensures Inv(Apply(w, Rename(k)))
  {
    var s, w' := w.sweeps[k], Apply(w, Rename(k));
    if Loc(s.donor, s.names[0]) in w.files && s.owner in w.dirs {
      ClaimMoves(w, k);
      ClaimKeepsSweeps(w, k);
      ClaimKeepsFiles(w, k);
    } else {
      QuietKeeps(w, Rename(k));
    }
  }

  /** A rename by this sweep moves the file. */
  predicate Claims(w: World, k: nat)
    requires AtWork(w, k)
  {
    Loc(w.sweeps[k].donor, w.sweeps[k].names[0]) in w.files && w.sweeps[k].owner in w.dirs
  }

  predicate Quiet(w: World, s: Step) {
    || s.Start? || s.Exit? || s.Roster? || s.List? || s.ReadFile? || s.Finish?
    || (s.Rename? && AtWork(w, s.k) && !Claims(w, s.k))
  }

  /** Steps that touch no file. */
  lemma QuietKeeps(w: World, s: Step)
    requires Inv(w) && Enabled(w, s) && Quiet(w, s)
    ensures Inv(Apply(w, s))
  {
    QuietTouches(w, s);
    QuietKeepsTrails(w, s);
    QuietKeepsSweeps(w, s);
    forall l | l in Apply(w, s).files ensures FileGood(Apply(w, s), l) {
      assert FileGood(w, l);
    }
  }

  lemma QuietTouches(w: World, s: Step)
    requires Enabled(w, s) && Quiet(w, s)
    ensures
      var w' := Apply(w, s);
      && w'.files == w.files && w'.trail == w.trail && w'.sent == w.sent && w'.removed == w.removed
      && w.dirs <= w'.dirs && w.ever <= w'.ever
      && (w.live <= w.ever && w.dirs <= w.ever ==> w'.live <= w'.ever && w'.dirs <= w'.ever)
      && forall d :: d in w'.live && d !in w.live ==> HasPid(d) ==> d !in w.ever
  {
  }

  lemma QuietKeepsTrails(w: World, s: Step)
    requires Inv(w) && Enabled(w, s) && Quiet(w, s)
    ensures TrailsGood(Apply(w, s))
  {
    QuietTouches(w, s);
    forall n | n in Apply(w, s).trail ensures TrailGood(Apply(w, s), n) {
      assert TrailGood(w, n);
    }
  }

  lemma ReadKeepsSweeps(w: World, k: nat)
    requires Inv(w) && Enabled(w, ReadFile(k))
    ensures SweepsGood(Apply(w, ReadFile(k)))
  {
    var w' := Apply(w, ReadFile(k));
    var l := Loc(w.sweeps[k].donor, w.sweeps[k].names[0]);
    assert l in w.files ==> FileGood(w, l);
    forall j | j in w'.sweeps ensures SweepGood(w', w'.sweeps[j]) {
      assert SweepGood(w, w.sweeps[j]);
    }
  }

  lemma QuietKeepsSweeps(w: World, s: Step)
    requires Inv(w) && Enabled(w, s) && Quiet(w, s)
    ensures SweepsGood(Apply(w, s))
  {
    if s.ReadFile? {
      ReadKeepsSweeps(w, s.k);
    } else {
      OthersKeepSweeps(w, s);
    }
  }

  lemma OthersKeepSweeps(w: World, s: Step)
    requires Inv(w) && Enabled(w, s) && Quiet(w, s) && !s.ReadFile?
    ensures SweepsGood(Apply(w, s))
  {
    var w' := Apply(w, s);
    if s.Rename? {
      LostKeepsSweeps(w, s.k);
    } else {
      forall k | k in w'.sweeps ensures SweepGood(w', w'.sweeps[k]) {
        assert k in w.sweeps ==> SweepGood(w, w.sweeps[k]);
      }
    }
  }

  lemma LostKeepsSweeps(w: World, k: nat)
    requires Inv(w) && Enabled(w, Rename(k)) && !Claims(w, k)
    ensures SweepsGood(TryRename(w, k))
  {
    var w' := TryRename(w, k);
    forall j | j in w'.sweeps ensures SweepGood(w', w'.sweeps[j]) {
      assert SweepGood(w, w.sweeps[j]);
    }
  }

  lemma WriteKeeps(w: World, loc: Loc, m: Msg)
    requires Inv(w) && loc in w.files && loc.name in w.sent && Faithful(m, w.sent[loc.name])
    ensures Inv(Written(w, loc, m))
  {
    var w' := Written(w, loc, m);
    forall n | n in w'.trail ensures TrailGood(w', n) {
      assert TrailGood(w, n);
    }
    forall l | l in w'.files ensures FileGood(w', l) {
      assert FileGood(w, l);
    }
    forall k | k in w'.sweeps ensures SweepGood(w', w'.sweeps[k]) {
      assert SweepGood(w, w.sweeps[k]);
    }
  }

  lemma MarkKeeps(w: World, loc: Loc, now: int)
    requires Inv(w) && loc in w.files
    ensures Inv(Written(w, loc, Marked(w.files[loc], now)))
  {
    assert FileGood(w, loc);
    WriteKeeps(w, loc, Marked(w.files[loc], now));
  }

  lemma RetireKeeps(w: World, loc: Loc, now: int)
    requires Inv(w) && loc in w.files && w.files[loc].state == Pending
    ensures Inv(Written(w, loc, Tombstone(w.files[loc], now)))
  {
    assert FileGood(w, loc);
    assert Tombstone(w.files[loc], now) == Tombstone(w.sent[loc.name], now);
    WriteKeeps(w, loc, Tombstone(w.files[loc], now));
  }

  lemma SkipKeeps(w: World, k: nat)
    requires Inv(w) && AtWork(w, k)
    ensures Inv(Skipped(w, k))
  {
    var w' := Skipped(w, k);
    forall n | n in w'.trail ensures TrailGood(w', n) {
      assert TrailGood(w, n);
    }
    forall l | l in w'.files ensures FileGood(w', l) {
      assert FileGood(w, l);
    }
    forall j | j in w'.sweeps ensures SweepGood(w', w'.sweeps[j]) {
      assert SweepGood(w, w.sweeps[j]);
    }
  }

  lemma RewriteKeeps(w: World, k: nat)
    requires Inv(w) && AtWork(w, k) && w.sweeps[k].at.Gap?
    ensures Inv(TryRewrite(w, k)) && TryRewrite(w, k) == Rewritten(w, k)
  {
    var s := w.sweeps[k];
    assert SweepGood(w, s);
    var loc, m := Loc(s.owner, s.names[0]), Tagged(s.at.msg, s.donor);
    assert FileGood(w, loc);
    WriteKeeps(w, loc, m);
    SkipKeeps(Written(w, loc, m), k);
  }

  lemma RemoveKeeps(w: World, loc: Loc)
    requires Inv(w) && loc in w.files && !InGap(w, loc)
    ensures Inv(Removed(w, loc))
  {
    var w' := Removed(w, loc);
    assert FileGood(w, loc);
    forall n | n in w'.trail ensures TrailGood(w', n) {
      assert TrailGood(w, n);
    }
    RemoveKeepsFiles(w, loc);
    RemoveKeepsSweeps(w, loc);
  }

  lemma RemoveKeepsFiles(w: World, loc: Loc)
    requires Inv(w) && loc in w.files
    ensures FilesGood(Removed(w, loc))
  {
    assert FileGood(w, loc);
    forall l | l in Removed(w, loc).files ensures FileGood(Removed(w, loc), l) {
      assert FileGood(w, l);
    }
  }

  lemma RemoveKeepsSweeps(w: World, loc: Loc)
    requires Inv(w) && loc in w.files && !InGap(w, loc)
    ensures SweepsGood(Removed(w, loc))
  {
    var w' := Removed(w, loc);
    forall k | k in w'.sweeps ensures SweepGood(w', w'.sweeps[k]) {
      assert SweepGood(w, w.sweeps[k]);
      assert !GapAt(w.sweeps[k], loc);
    }
  }

  lemma ReapKeeps(w: World, inbox: string)
    requires Inv(w) && Enabled(w, Reap(inbox))
    ensures Inv(Apply(w, Reap(inbox)))
  {
    var w' := Apply(w, Reap(inbox));
    forall n | n in w'.trail ensures TrailGood(w', n) {
      assert TrailGood(w, n);
    }
    forall l | l in w'.files ensures FileGood(w', l) {
      assert FileGood(w, l);
    }
    forall k | k in w'.sweeps ensures SweepGood(w', w'.sweeps[k]) {
      assert SweepGood(w, w.sweeps[k]);
    }
  }

  lemma StepKeeps(w: World, s: Step)
    requires Inv(w) && Enabled(w, s)
    ensures Inv(Apply(w, s))
  {
    match s
    case Send(inbox, name, msg) => SendKeeps(w, inbox, name, msg);
    case Rename(k) => RenameKeeps(w, k);
    case Rewrite(k) => RewriteKeeps(w, k);
    case Reap(inbox) => ReapKeeps(w, inbox);
    case Mark(loc, now) => MarkKeeps(w, loc, now);
    case Retire(loc, now) => RetireKeeps(w, loc, now);
    case Remove(loc) => RemoveKeeps(w, loc);
    case _ => QuietKeeps(w, s);
  }

  // ----- whole runs -----

  ghost predicate Reaches(w: World, run: seq<Step>, w': World)
    decreases |run|
  {
    if run == [] then w == w'
    else Enabled(w, run[0]) && Reaches(Apply(w, run[0]), run[1..], w')
  }

  ghost predicate Initial(w: World) {
    && w.files == map[] && w.live == {} && w.sweeps == map[] && w.trail == map[] && w.sent == map[]
    && w.removed == {} && w.dirs <= w.ever
  }

  lemma {:induction false} RunKeeps(w: World, run: seq<Step>, w': World)
    requires Inv(w) && Reaches(w, run, w')
    ensures Inv(w')
    decreases |run|
  {
    if run != [] {
      StepKeeps(w, run[0]);
      RunKeeps(Apply(w, run[0]), run[1..], w');
    }
  }

  /** Mail is conserved: after any run every file ever written is in exactly one inbox, the
      last one of its trail, unless its owner removed it; and it still holds what was sent. */
  lemma MailConserved(w: World, run: seq<Step>, w': World, n: string)
    requires Initial(w) && Reaches(w, run, w')
    ensures n !in w'.trail ==> forall l :: l in w'.files ==> l.name != n
    ensures n in w'.trail ==> w'.trail[n] != [] && n in w'.sent
    ensures n in w'.trail && n in w'.removed ==> forall l :: l in w'.files ==> l.name != n
    ensures n in w'.trail && n !in w'.removed ==> (
      var home := Loc(Last(w'.trail[n]), n);
      && home in w'.files && Faithful(w'.files[home], w'.sent[n])
      && forall l :: l in w'.files && l.name == n ==> l == home)
  {
    RunKeeps(w, run, w');
    if n in w'.trail {
      assert TrailGood(w', n);
    }
    forall l | l in w'.files && l.name == n
      ensures n in w'.trail && n !in w'.removed && l == Loc(Last(w'.trail[n]), n)
    {
      assert FileGood(w', l);
    }
  }

  /** A message is adopted at most once into and at most once out of every inbox. */
  lemma AdoptedOnce(w: World, run: seq<Step>, w': World, n: string)
    requires Initial(w) && Reaches(w, run, w') && n in w'.trail
    ensures forall i, j :: 0 <= i < j < |w'.trail[n]| ==> w'.trail[n][i] != w'.trail[n][j]
  {
    RunKeeps(w, run, w');
    assert TrailGood(w', n);
  }

  /** Two sweepers holding the same file: whoever renames second only moves on, and a first
      rename that is refused moves nothing. */
  lemma RaceWonOnce(w: World, j: nat, k: nat)
    requires Inv(w) && j != k && Enabled(w, Rename(j)) && Enabled(w, Rename(k))
    requires w.sweeps[j].donor == w.sweeps[k].donor && w.sweeps[j].names[0] == w.sweeps[k].names[0]
    ensures
      var first := TryRename(w, j);
      && AtWork(first, k) && first.sweeps[k].at.Holding?
      && (if Claims(w, j) then TryRename(first, k) == Skipped(first, k)
          else first.files == w.files && first.trail == w.trail)
  {
    assert TryRename(w, j).sweeps[k] == w.sweeps[k];
    if Claims(w, j) {
      ClaimedIsGone(w, j);
    }
  }

  lemma ClaimedIsGone(w: World, j: nat)
    requires Inv(w) && Enabled(w, Rename(j)) && Claims(w, j)
    ensures Loc(w.sweeps[j].donor, w.sweeps[j].names[0]) !in TryRename(w, j).files
  {
    assert SweepGood(w, w.sweeps[j]);
  }

  // ----- the nick a message was written for -----

  /** An adoption stays with the nick unless it takes the nick's own inbox and the nick
      itself ends in a process id. */
  lemma SourceKeepsNickIff(owner: string, donor: string)
    requires IsSource(owner, donor)
    ensures DurableNick(donor) == DurableNick(owner) <==> !(donor == DurableNick(owner) && HasPid(donor))
  {
    if DurableNick(owner) != [] {
      SessionIffDurable(DurableNick(owner), donor);
    }
  }

  ghost predicate SameNick(t: seq<string>) {
    forall i :: 0 <= i < |t| ==> DurableNick(t[i]) == DurableNick(t[0])
  }

  ghost predicate NickInv(w: World) {
    && (forall n :: n in w.trail ==> SameNick(w.trail[n]))
    && (forall k :: k in w.sweeps ==> DurableNick(w.sweeps[k].donor) == DurableNick(w.sweeps[k].owner))
  }

  /** No sweeping session's nick ends in a dash and digits. */
  predicate PlainStep(s: Step) { s.List? ==> !HasPid(DurableNick(s.owner)) }

  predicate PlainNicks(run: seq<Step>) { forall i :: 0 <= i < |run| ==> PlainStep(run[i]) }

  lemma ClaimKeepsNick(w: World, k: nat)
    requires Inv(w) && NickInv(w) && Enabled(w, Rename(k))
    ensures NickInv(TryRename(w, k))
  {
    var s := w.sweeps[k];
    var src := Loc(s.donor, s.names[0]);
    if Claims(w, k) {
      assert FileGood(w, src);
      SameNickGrows(w.trail[src.name], s.owner);
      TrailsAfterClaim(w, k);
    }
  }

  lemma TrailsAfterClaim(w: World, k: nat)
    requires NickInv(w) && Enabled(w, Rename(k)) && Claims(w, k)
    requires w.sweeps[k].names[0] in w.trail && SameNick(w.trail[w.sweeps[k].names[0]] + [w.sweeps[k].owner])
    ensures NickInv(TryRename(w, k))
  {
    var w' := TryRename(w, k);
    forall n | n in w'.trail ensures SameNick(w'.trail[n]) {
      assert n in w.trail && SameNick(w.trail[n]);
    }
  }

  lemma SameNickGrows(t: seq<string>, owner: string)
    requires t != [] && SameNick(t) && DurableNick(Last(t)) == DurableNick(owner)
    ensures SameNick(t + [owner])
  {
  }

  lemma ListKeepsNick(w: World, s: Step)
    requires NickInv(w) && s.List? && Enabled(w, s) && PlainStep(s)
    ensures NickInv(Apply(w, s))
  {
    SourceKeepsNickIff(s.owner, s.donor);
  }

  lemma SendKeepsNick(w: World, s: Step)
    requires NickInv(w) && s.Send? && Enabled(w, s)
    ensures NickInv(Apply(w, s))
  {
    var w' := Apply(w, s);
    forall n | n in w'.trail ensures SameNick(w'.trail[n]) {
      assert n in w.trail ==> SameNick(w.trail[n]);
    }
  }

  lemma SameTrailsKeepNick(w: World, w': World)
    requires NickInv(w) && w'.trail == w.trail
    requires forall k :: k in w'.sweeps ==>
      k in w.sweeps && w'.sweeps[k].donor == w.sweeps[k].donor && w'.sweeps[k].owner == w.sweeps[k].owner
    ensures NickInv(w')
  {
  }

  /** Apart from sends, listings and claims, no step moves a file or changes who sweeps whom. */
  lemma OthersMoveNothing(w: World, s: Step)
    requires Enabled(w, s) && !s.Send? && !s.List? && !s.Rename?
    ensures
      var w' := Apply(w, s);
      && w'.trail == w.trail
      && forall k :: k in w'.sweeps ==>
           k in w.sweeps && w'.sweeps[k].donor == w.sweeps[k].donor && w'.sweeps[k].owner == w.sweeps[k].owner
  {
  }

  lemma StepKeepsNick(w: World, s: Step)
    requires Inv(w) && NickInv(w) && Enabled(w, s) && PlainStep(s)
    ensures NickInv(Apply(w, s))
  {
    if s.List? {
      ListKeepsNick(w, s);
    } else if s.Rename? {
      ClaimKeepsNick(w, s.k);
    } else if s.Send? {
      SendKeepsNick(w, s);
    } else {
      QuietKeepsNick(w, s);
    }
  }

  lemma QuietKeepsNick(w: World, s: Step)
    requires NickInv(w) && Enabled(w, s) && !s.Send? && !s.List? && !s.Rename?
    ensures NickInv(Apply(w, s))
  {
    OthersMoveNothing(w, s);
    SameTrailsKeepNick(w, Apply(w, s));
  }

  lemma {:induction false} RunKeepsNick(w: World, run: seq<Step>, w': World)
    requires Inv(w) && NickInv(w) && Reaches(w, run, w') && PlainNicks(run)
    ensures NickInv(w')
    decreases |run|
  {
    if run != [] {
      StepKeeps(w, run[0]);
      StepKeepsNick(w, run[0]);
      RunKeepsNick(Apply(w, run[0]), run[1..], w');
    }
  }

  /** With plain nicks a message never leaves the inboxes of the nick it was first written for. */
  lemma NickKept(w: World, run: seq<Step>, w': World, l: Loc)
    requires Initial(w) && Reaches(w, run, w') && PlainNicks(run) && l in w'.files
    ensures l.name in w'.trail && w'.trail[l.name] != []
    ensures DurableNick(l.inbox) == DurableNick(w'.trail[l.name][0])
  {
    RunKeeps(w, run, w');
    RunKeepsNick(w, run, w');
    assert FileGood(w', l);
    assert SameNick(w'.trail[l.name]);
  }

  /** Why plainness is asked for: `web-2-7` adopts the inbox of `web-2`, which is also a
      session name of `web`. */
  lemma NestedNickLeaks()
    ensures IsSource("web-2-7", "web-2") && DurableNick("web-2") == "web" && DurableNick("web-2-7") == "web-2"
  {
    assert DigitTail("web-2-7") == 1 && DigitTail("web-2-") == 0;
    assert DigitTail("web-2") == 1 && DigitTail("web-") == 0;
    assert "web-2-7"[..5] == "web-2" && "web-2"[..3] == "web";
  }

  // ----- the gap between rename and rewrite -----

  ghost predicate HasFile(w: World, n: string) { exists l :: l in w.files && l.name == n }

  /** Some run after the deletion of a file ends with a file of that name. */
  ghost predicate ComesBack(w: World, loc: Loc) {
    exists run, w' :: Reaches(Removed(w, loc), run, w') && HasFile(w', loc.name)
  }

  lemma {:induction false} RemovedStays(w: World, run: seq<Step>, w': World)
    requires Reaches(w, run, w')
    ensures w.removed <= w'.removed
    decreases |run|
  {
    if run != [] {
      RemovedStays(Apply(w, run[0]), run[1..], w');
    }
  }

  /** A file an heir deletes can come back exactly when a sweep of its own is between the
      rename and the rewrite of that file. */
  lemma DeletionUndoneIff(w: World, loc: Loc)
    requires Inv(w) && OwnFile(w, loc)
    ensures ComesBack(w, loc) <==> InGap(w, loc)
  {
    if InGap(w, loc) {
      var k :| k in w.sweeps && GapAt(w.sweeps[k], loc);
      RewriteRestores(w, loc, k);
    } else {
      forall run, w' | Reaches(Removed(w, loc), run, w') ensures !HasFile(w', loc.name) {
        StaysDeleted(w, loc, run, w');
      }
    }
  }

  lemma RewriteRestores(w: World, loc: Loc, k: nat)
    requires Inv(w) && OwnFile(w, loc) && k in w.sweeps && GapAt(w.sweeps[k], loc)
    ensures ComesBack(w, loc)
  {
    GapResurrects(w, loc, k);
    OneStep(Removed(w, loc), Rewrite(k));
    assert HasFile(Apply(Removed(w, loc), Rewrite(k)), loc.name);
  }

  lemma OneStep(w: World, s: Step)
    requires Enabled(w, s)
    ensures Reaches(w, [s], Apply(w, s))
  {
    assert [s][1..] == [];
  }

  lemma StaysDeleted(w: World, loc: Loc, run: seq<Step>, w': World)
    requires Inv(w) && OwnFile(w, loc) && !InGap(w, loc) && Reaches(Removed(w, loc), run, w')
    ensures !HasFile(w', loc.name)
  {
    RemoveKeeps(w, loc);
    RunKeeps(Removed(w, loc), run, w');
    RemovedStays(Removed(w, loc), run, w');
    forall l | l in w'.files ensures l.name != loc.name {
      assert FileGood(w', l);
    }
  }

  /** The rewrite brings it back pending, whatever its heir had done with it. */
  lemma GapResurrects(w: World, loc: Loc, k: nat)
    requires Inv(w) && OwnFile(w, loc) && k in w.sweeps && GapAt(w.sweeps[k], loc)
    ensures
      var w' := Rewritten(Removed(w, loc), k);
      && Enabled(Removed(w, loc), Rewrite(k)) && w' == Apply(Removed(w, loc), Rewrite(k))
      && loc in w'.files && loc.name in w'.removed && w'.files[loc].state == Pending
  {
    assert SweepGood(w, w.sweeps[k]);
  }
}
