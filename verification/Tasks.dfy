/** Claiming and completing a task (server.py). The record and the claim marker are
    separate files, so a call is split into its file operations; any number of calls by
    any agents run interleaved, and a call may stop for good at any point. */
module Tasks {
  import opened Messages

  datatype TaskState = Open | Claimed | Done

  datatype Rec = Rec(state: TaskState, claimedBy: Option<string>, claimedAt: int, doneAt: int)

  datatype Op = Claim | Complete

  /** How far a call is, with the record it is holding. */
  datatype Pc =
    | Begin
    | HasRead(rec: Rec) | Created(rec: Rec) | Marked(rec: Rec) | Losing(rec: Rec) | Ready(rec: Rec)
    | Returned(rec: Rec)
    | Raised

  datatype Call = Call(op: Op, agent: string, pc: Pc)

  /** One task: its record, the content of its claim marker if there is one, and the calls
      on it. `winner` remembers who created the marker. */
  datatype World = World(rec: Rec, marker: Option<string>, winner: Option<string>, calls: map<nat, Call>)

  datatype Step = Enter(k: nat, op: Op, agent: string) | Go(k: nat, now: int)

  function ClaimedRec(r: Rec, agent: string, now: int): Rec {
    r.(state := Claimed, claimedBy := Some(agent), claimedAt := now)
  }

  function DoneRec(r: Rec, agent: string, now: int): Rec {
    r.(state := Done, doneAt := now, claimedBy := if r.claimedBy.None? then Some(agent) else r.claimedBy)
  }

  predicate HeldByOther(r: Rec, agent: string) { r.claimedBy.Some? && r.claimedBy.value != agent }

  predicate Enabled(w: World, s: Step) {
    match s
    case Enter(k, op, agent) => k !in w.calls && agent != ""
    case Go(k, now) => k in w.calls
  }

  /** The next file operation of a call, and what the call does with it. */
  function Advance(w: World, k: nat, now: int): World
    requires k in w.calls
  {
    var c := w.calls[k];
    match c.pc
    case Begin =>
      if c.op == Claim then At(w, k, if w.rec.state == Done then Raised else HasRead(w.rec))
      else At(w, k, if HeldByOther(w.rec, c.agent) then Raised else Ready(DoneRec(w.rec, c.agent, now)))
    case HasRead(r) =>
      if w.marker.None? then At(w.(marker := Some(""), winner := Some(c.agent)), k, Created(r)) else At(w, k, Losing(r))
    case Losing(r) => At(w, k, if w.marker == Some(c.agent) then Returned(r) else Raised)
    case Created(r) => At(w.(marker := Some(c.agent)), k, Marked(r))
    case Marked(r) => At(w.(rec := ClaimedRec(r, c.agent, now)), k, Returned(ClaimedRec(r, c.agent, now)))
    case Ready(r) => At(w.(rec := r), k, Returned(r))
    case Returned(r) => w
    case Raised => w
  }

  function At(w: World, k: nat, pc: Pc): World
    requires k in w.calls
  {
    w.(calls := w.calls[k := w.calls[k].(pc := pc)])
  }

  function Next(w: World, s: Step): World
    requires Enabled(w, s)
  {
    match s
    case Enter(k, op, agent) => w.(calls := w.calls[k := Call(op, agent, Begin)])
    case Go(k, now) => Advance(w, k, now)
  }

  ghost predicate Reaches(w: World, run: seq<Step>, w': World)
    decreases |run|
  {
    if run == [] then w == w' else Enabled(w, run[0]) && Reaches(Next(w, run[0]), run[1..], w')
  }

  const NEW_TASK := World(Rec(Open, None, 0, 0), None, None, map[])

  // ----- exclusion -----

  /** The call got through: it is past the exclusive create, or has returned normally. */
  predicate Through(c: Call) { c.op == Claim && (c.pc.Created? || c.pc.Marked? || c.pc.Returned?) }

  predicate CallGood(w: World, c: Call) {
    && c.agent != ""
    && (c.pc.HasRead? || c.pc.Losing? || c.pc.Created? || c.pc.Marked? ==> c.op == Claim)
    && (c.pc.Ready? ==> c.op == Complete)
    && (Through(c) ==> w.winner == Some(c.agent))
  }

  ghost predicate Inv(w: World) {
    && (w.marker.None? <==> w.winner.None?)
    && (w.marker.Some? ==> w.marker.value == "" || w.marker == w.winner)
    && forall k :: k in w.calls ==> CallGood(w, w.calls[k])
  }

  lemma StepKeeps(w: World, s: Step)
    requires Inv(w) && Enabled(w, s)
    ensures Inv(Next(w, s))
  {
    var w' := Next(w, s);
    forall k | k in w'.calls ensures CallGood(w', w'.calls[k]) {
      assert k in w.calls ==> CallGood(w, w.calls[k]);
    }
  }

  lemma {:induction false} RunKeeps(w: World, run: seq<Step>, w': World)
    requires Inv(w) && Reaches(w, run, w')
    ensures Inv(w')
    decreases |run|
  {
    if run != [] {
      StepKeeps(w, run[0]);
      RunKeeps(Next(w, run[0]), run[1..], w');
    }
  }

  /** In every interleaving at most one agent id ever gets a normal return from a claim. */
  lemma ClaimExclusive(run: seq<Step>, w': World, j: nat, k: nat)
    requires Reaches(NEW_TASK, run, w')
    requires j in w'.calls && w'.calls[j].op == Claim && w'.calls[j].pc.Returned?
    requires k in w'.calls && w'.calls[k].op == Claim && w'.calls[k].pc.Returned?
    ensures w'.calls[j].agent == w'.calls[k].agent
  {
    RunKeeps(NEW_TASK, run, w');
  }

  // ----- whole calls -----

  datatype Store = Store(rec: Rec, marker: Option<string>)

  datatype Outcome = Ok(rec: Rec) | Error

  function ClaimCall(s: Store, agent: string, now: int): (Store, Outcome) {
    if s.rec.state == Done then (s, Error)
    else if s.marker.Some? then (s, if s.marker.value == agent then Ok(s.rec) else Error)
    else
      var rec := ClaimedRec(s.rec, agent, now);
      (Store(rec, Some(agent)), Ok(rec))
  }

  function CompleteCall(s: Store, agent: string, now: int): (Store, Outcome) {
    if HeldByOther(s.rec, agent) then (s, Error)
    else
      var rec := DoneRec(s.rec, agent, now);
      (s.(rec := rec), Ok(rec))
  }

  class Task {
    var rec: Rec
    var marker: Option<string>

    constructor ()
      ensures Store(rec, marker) == Store(Rec(Open, None, 0, 0), None) && Settled(Store(rec, marker))
    {
      rec, marker := Rec(Open, None, 0, 0), None;
    }

    method ClaimTask(agent: string, now: int) returns (r: Outcome)
      modifies this
      ensures (Store(rec, marker), r) == ClaimCall(old(Store(rec, marker)), agent, now)
    {
      var held := rec;
      if held.state == Done {
        return Error;
      }
      if marker.Some? {
        if marker.value == agent {
          return Ok(held);
        }
        return Error;
      }
      marker := Some(agent);
      held := held.(state := Claimed, claimedBy := Some(agent), claimedAt := now);
      rec := held;
      return Ok(held);
    }

    method CompleteTask(agent: string, now: int) returns (r: Outcome)
      modifies this
      ensures (Store(rec, marker), r) == CompleteCall(old(Store(rec, marker)), agent, now)
    {
      var held := rec;
      var holder := held.claimedBy;
      if holder.Some? && holder.value != agent {
        return Error;
      }
      held := held.(state := Done, doneAt := now);
      if holder.None? {
        held := held.(claimedBy := Some(agent));
      }
      rec := held;
      return Ok(held);
    }
  }

  function Alone(w: World, k: nat, now: int, n: nat): World
    requires k in w.calls
    decreases n
  {
    if n == 0 then w else Alone(Advance(w, k, now), k, now, n - 1)
  }

  function OutcomeOf(pc: Pc): Outcome { if pc.Returned? then Ok(pc.rec) else Error }

  /** A call whose operations nobody interrupts is the whole call. */
  lemma CallIsItsSteps(w: World, k: nat, now: int)
    requires k in w.calls && w.calls[k].pc == Begin && w.calls[k].agent != ""
    ensures
      var w', c := Alone(w, k, now, 5), w.calls[k];
      (Store(w'.rec, w'.marker), OutcomeOf(w'.calls[k].pc)) ==
      if c.op == Claim then ClaimCall(Store(w.rec, w.marker), c.agent, now)
      else CompleteCall(Store(w.rec, w.marker), c.agent, now)
  {
    var w1 := Advance(w, k, now);
    var w2 := Advance(w1, k, now);
    var w3 := Advance(w2, k, now);
    var w4 := Advance(w3, k, now);
    var w5 := Advance(w4, k, now);
    assert Alone(w5, k, now, 0) == w5;
    assert Alone(w4, k, now, 1) == w5;
    assert Alone(w3, k, now, 2) == w5;
    assert Alone(w2, k, now, 3) == w5;
    assert Alone(w1, k, now, 4) == w5;
  }

  datatype Whole = Whole(op: Op, agent: string, now: int)

  function AfterCalls(s: Store, calls: seq<Whole>): Store
    decreases |calls|
  {
    if calls == [] then s
    else
      var c := calls[0];
      var next := if c.op == Claim then ClaimCall(s, c.agent, c.now).0 else CompleteCall(s, c.agent, c.now).0;
      AfterCalls(next, calls[1..])
  }

  predicate Settled(s: Store) {
    match s.rec.state
    case Open => s.rec.claimedBy.None? && s.marker.None?
    case Claimed => s.rec.claimedBy.Some? && s.marker == s.rec.claimedBy
    case Done => s.rec.claimedBy.Some? && (s.marker.None? || s.marker == s.rec.claimedBy)
  }

  /** With whole calls atomic, done is absorbing and `claimed_by` is written once. */
  lemma {:induction false} WholeCallsKeepOwner(s: Store, calls: seq<Whole>)
    requires Settled(s)
    ensures
      var s' := AfterCalls(s, calls);
      && Settled(s')
      && (s.rec.state == Done ==> s'.rec.state == Done)
      && (s.rec.claimedBy.Some? ==> s'.rec.claimedBy == s.rec.claimedBy)
    decreases |calls|
  {
    if calls != [] {
      var c := calls[0];
      var next := if c.op == Claim then ClaimCall(s, c.agent, c.now).0 else CompleteCall(s, c.agent, c.now).0;
      WholeCallsKeepOwner(next, calls[1..]);
    }
  }

  /** Once an item has an owner, whatever calls come, a completion gets through exactly for the
      owner, and so does a claim while the item is not done; nobody else's changes anything. */
  lemma OnlyOwnerGetsThrough(s: Store, calls: seq<Whole>, owner: string, agent: string, now: int)
    requires Settled(s) && s.rec.claimedBy == Some(owner)
    ensures
      var s' := AfterCalls(s, calls);
      var (done, completion), (held, claim) := CompleteCall(s', agent, now), ClaimCall(s', agent, now);
      && (completion.Ok? <==> agent == owner) && (claim.Ok? <==> agent == owner && s'.rec.state != Done)
      && (completion.Ok? ==> done.rec == s'.rec.(state := Done, doneAt := now) && done.marker == s'.marker)
      && (completion.Error? ==> done == s') && held == s'
  {
    WholeCallsKeepOwner(s, calls);
  }

  /** A completion past its read: refused, or holding the item as its owner. */
  predicate Finishing(c: Call) {
    c.op == Complete ==>
      c.pc.Raised? ||
      ((c.pc.Ready? || c.pc.Returned?) && c.pc.rec.state == Done && c.pc.rec.claimedBy == Some(c.agent))
  }

  /** Interleaved or not: who completes an item found it unclaimed or claimed by itself, and is
      its owner in the record it returns. */
  lemma {:induction false} FinisherIsOwner(w: World, run: seq<Step>, w': World, k: nat)
    requires Reaches(w, run, w') && k in w'.calls && w'.calls[k].op == Complete
    requires k in w.calls && w.calls[k].pc != Begin ==> Finishing(w.calls[k])
    ensures w'.calls[k].pc != Begin ==> Finishing(w'.calls[k])
    decreases |run|
  {
    if run != [] {
      FinisherIsOwner(Next(w, run[0]), run[1..], w', k);
    }
  }

  // ----- done is not absorbing when calls interleave -----

  /** A claim that read the record in time and can still win the marker, or has won it. */
  predicate CanOverwrite(w: World, c: Call) {
    c.op == Claim && (c.pc.Created? || c.pc.Marked? || (c.pc.HasRead? && w.marker.None?))
  }

  ghost predicate CanBeUndone(w: World) {
    exists run, w' :: Reaches(w, run, w') && w'.rec.state != Done
  }

  lemma {:induction false} DoneStays(w: World, run: seq<Step>, w': World)
    requires Inv(w) && w.rec.state == Done && Reaches(w, run, w')
    requires forall k :: k in w.calls ==> !CanOverwrite(w, w.calls[k])
    requires forall k :: k in w.calls && w.calls[k].pc.Ready? ==> w.calls[k].pc.rec.state == Done
    ensures w'.rec.state == Done
    decreases |run|
  {
    if run != [] {
      StepKeeps(w, run[0]);
      DoneStays(Next(w, run[0]), run[1..], w');
    }
  }

  lemma Finishes(w: World, k: nat)
    requires k in w.calls && CanOverwrite(w, w.calls[k])
    ensures CanBeUndone(w)
  {
    var w1 := Advance(w, k, 0);
    var w2 := Advance(w1, k, 0);
    var w3 := Advance(w2, k, 0);
    var go := Go(k, 0);
    assert Reaches(w3, [], w3);
    assert [go][1..] == [] && [go, go][1..] == [go] && [go, go, go][1..] == [go, go];
    assert Reaches(w2, [go], w3);
    assert Reaches(w1, [go, go], w3);
    assert Reaches(w, [go, go, go], w3);
    assert w3.rec.state == Claimed;
  }

  /** A finished task can come undone exactly when some claim read the record before it was
      finished and can still win, or has won, the marker. */
  lemma DoneUndoneIff(run: seq<Step>, w: World)
    requires Reaches(NEW_TASK, run, w) && w.rec.state == Done
    ensures CanBeUndone(w) <==> exists k :: k in w.calls && CanOverwrite(w, w.calls[k])
  {
    RunKeeps(NEW_TASK, run, w);
    ReadyIsDone(NEW_TASK, run, w);
    if exists k :: k in w.calls && CanOverwrite(w, w.calls[k]) {
      var k :| k in w.calls && CanOverwrite(w, w.calls[k]);
      Finishes(w, k);
    } else if CanBeUndone(w) {
      var more, w' :| Reaches(w, more, w') && w'.rec.state != Done;
      DoneStays(w, more, w');
    }
  }

  lemma {:induction false} ReadyIsDone(w: World, run: seq<Step>, w': World)
    requires Reaches(w, run, w')
    requires forall k :: k in w.calls && w.calls[k].pc.Ready? ==> w.calls[k].pc.rec.state == Done
    ensures forall k :: k in w'.calls && w'.calls[k].pc.Ready? ==> w'.calls[k].pc.rec.state == Done
    decreases |run|
  {
    if run != [] {
      ReadyIsDone(Next(w, run[0]), run[1..], w');
    }
  }

  /** And such runs exist: a claim reads the record, another agent completes it, the claim goes on. */
  lemma DoneComesUndone()
    ensures exists run, w :: Reaches(NEW_TASK, run, w) && w.rec.state == Done && CanBeUndone(w)
  {
    var run := [Enter(0, Claim, "a"), Go(0, 0), Enter(1, Complete, "b"), Go(1, 0), Go(1, 0)];
    var w1 := Next(NEW_TASK, run[0]);
    var w2 := Next(w1, run[1]);
    var w3 := Next(w2, run[2]);
    var w4 := Next(w3, run[3]);
    var w5 := Next(w4, run[4]);
    assert Reaches(w5, run[5..], w5);
    assert run[4..][1..] == run[5..] && Reaches(w4, run[4..], w5);
    assert run[3..][1..] == run[4..] && Reaches(w3, run[3..], w5);
    assert run[2..][1..] == run[3..] && Reaches(w2, run[2..], w5);
    assert run[1..][1..] == run[2..] && Reaches(w1, run[1..], w5);
    assert Reaches(NEW_TASK, run, w5);
    Finishes(w5, 0);
  }
}
