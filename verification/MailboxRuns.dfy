/** Delivery receipts tell the truth: what a copy's state says about whether its recipient
    ever saw it, over any run of deliveries, peeks, piggybacks and acks (server.py). */
module MailboxRuns {
  import opened Messages
  import opened Order
  import opened Mailbox

  /** `returned` holds the copies some call has handed to the recipient, `sent` what was
      delivered under each name; both are bookkeeping for the theorems. */
  datatype World = World(files: Inbox, returned: set<string>, sent: map<string, Msg>)

  datatype Step =
    | Deliver(name: string, msg: Msg)
    | Peek(q: Query, now: real)
    | Piggyback(now: real)
    | Ack(ids: seq<string>, now: real)

  /** The effect of `Mail.Peek`. */
  function Viewed(w: World, q: Query, now: real): World {
    w.(files := AfterPeek(w.files, q, now), returned := w.returned + NamesOf(Shown(w.files, q, now)))
  }

  predicate Enabled(w: World, s: Step) {
    s.Deliver? ==> s.name !in w.sent && s.msg.state == Pending && s.msg.readAt == 0
  }

  function Next(w: World, s: Step): World {
    match s
    case Deliver(name, msg) => w.(files := w.files + [File(name, msg)], sent := w.sent[name := msg])
    case Peek(q, now) => Viewed(w, q, now)
    case Piggyback(now) => Viewed(w, NEW_MAIL, now)
    case Ack(ids, now) => Viewed(w.(files := AckEach(w.files, ids)), NEW_MAIL, now)
  }

  // ----- what a peek shows -----

  function WaitingFile(now: real): File -> bool { (f: File) => Waiting(f.msg, now) }

  /** A plain peek shows exactly the waiting mail, in order: what the supervisor and the
      status command count is what the agent gets to read. */
  lemma {:induction false} PeekShowsWaiting(files: Inbox, now: real)
    ensures Shown(files, NEW_MAIL, now) == Filter(WaitingFile(now), files)
  {
    if files != [] {
      PeekShowsWaiting(files[1..], now);
      FilterAppend(Selects(NEW_MAIL), Retire(files[0], now), Cleaned(files[1..], now));
    }
  }

  /** A message that is never to expire, or whose time to live is not over. */
  predicate InTime(m: Msg, now: real) {
    m.mustRead || m.ttl <= 0 || m.timestamp <= 0 || now <= (m.timestamp + m.ttl) as real
  }

  /** No query ever shows a message whose time has run out, nor a tombstone. */
  lemma NothingStaleShown(files: Inbox, q: Query, now: real, f: File)
    requires f in Shown(files, q, now)
    ensures f in files && f.msg.state != Expired && InTime(f.msg, now)
  {
    FilterElements(Selects(q), Cleaned(files, now));
    CleanedFrom(files, now);
    var g :| g in files && f in Retire(g, now);
  }

  // ----- the invariant -----

  /** What a file may hold: the delivered message, read or not, or its tombstone. */
  predicate Kept(m: Msg, sent: Msg) {
    || (m.state != Expired && m.(state := Pending, readAt := 0) == sent)
    || (m.state == Expired && !sent.mustRead && Remains(m, sent))
  }

  /** A tombstone keeps who wrote what to whom and when, and the first 120 characters. */
  predicate Remains(m: Msg, sent: Msg) {
    && m.id == sent.id && m.from_ == sent.from_ && m.to == sent.to && m.timestamp == sent.timestamp
    && m.thread == sent.thread && m.content == (if |sent.content| <= 120 then sent.content else sent.content[..120])
    && m.ttl == 0 && !m.mustRead && m.readAt == 0 && m.via == Local && m.inheritedFrom == None
  }

  predicate FileGood(w: World, f: File) {
    f.name in w.sent && Kept(f.msg, w.sent[f.name]) && (f.msg.state == Read <==> f.name in w.returned)
  }

  ghost predicate Inv(w: World) {
    && DistinctNames(w.files)
    && (forall f :: f in w.files ==> FileGood(w, f))
    && (forall n :: n in w.returned ==> n in w.sent)
    && (forall n :: n in w.sent ==> w.sent[n].state == Pending && w.sent[n].readAt == 0)
  }

  lemma CleanKeeps(w: World, now: real)
    requires Inv(w)
    ensures Inv(w.(files := Cleaned(w.files, now)))
  {
    CleanedDistinct(w.files, now);
    CleanedFrom(w.files, now);
    forall g | g in Cleaned(w.files, now) ensures FileGood(w, g) {
      var f :| f in w.files && g in Retire(f, now);
      assert FileGood(w, f);
    }
  }

  function MarkOne(p: File -> bool, f: File, now: int): File { if p(f) then f.(msg := Marked(f.msg, now)) else f }

  lemma {:induction false} MarkWhereAt(p: File -> bool, files: Inbox, now: int)
    ensures |MarkWhere(p, files, now)| == |files|
    ensures forall i :: 0 <= i < |files| ==> MarkWhere(p, files, now)[i] == MarkOne(p, files[i], now)
  {
    if files != [] {
      MarkWhereAt(p, files[1..], now);
    }
  }

  lemma ShownNames(p: File -> bool, files: Inbox, f: File)
    requires DistinctNames(files) && f in files
    ensures f.name in NamesOf(Filter(p, files)) <==> p(f)
  {
    FilterElements(p, files);
    if f.name in NamesOf(Filter(p, files)) {
      var h :| h in Filter(p, files) && h.name == f.name;
      assert h in files;
      assert h == f;
    }
  }

  /** A query marks what it shows, and shows nothing but live mail. */
  lemma MarkKeeps(w: World, q: Query, now: int)
    requires Inv(w)
    ensures
      Inv(w.(files := MarkWhere(Selects(q), w.files, now),
             returned := w.returned + NamesOf(Filter(Selects(q), w.files))))
  {
    var p := Selects(q);
    var marked, shown := MarkWhere(p, w.files, now), Filter(p, w.files);
    var w' := w.(files := marked, returned := w.returned + NamesOf(shown));
    MarkWhereAt(p, w.files, now);
    FilterElements(p, w.files);
    forall g | g in marked ensures FileGood(w', g) {
      var i :| 0 <= i < |marked| && marked[i] == g;
      var f := w.files[i];
      assert FileGood(w, f);
      ShownNames(p, w.files, f);
    }
    forall n | n in w'.returned ensures n in w'.sent {
      if n in NamesOf(shown) {
        var h :| h in shown && h.name == n;
        assert FileGood(w, h);
      }
    }
  }

  /** What a call makes of one file it does not retire: if it is shown and was pending, it is
      read now; otherwise it stays as it is. */
  lemma ViewMarks(w: World, q: Query, now: real, f: File)
    requires DistinctNames(w.files) && f in Cleaned(w.files, now)
    ensures
      var g := if f in Shown(w.files, q, now) && f.msg.state == Pending
               then f.(msg := f.msg.(state := Read, readAt := now.Floor)) else f;
      g in Viewed(w, q, now).files
  {
    var cleaned, p := Cleaned(w.files, now), Selects(q);
    MarkWhereAt(p, cleaned, now.Floor);
    FilterElements(p, cleaned);
    var i :| 0 <= i < |cleaned| && cleaned[i] == f;
    assert MarkWhere(p, cleaned, now.Floor)[i] == MarkOne(p, f, now.Floor);
  }

  /** Cleanup leaves a tombstone of a pending message that ran out, stamped with the time, and
      what is in time as it is. */
  lemma {:induction false} CleanedAt(files: Inbox, now: real, f: File)
    requires f in files && f.msg.state != Expired
    ensures InTime(f.msg, now) ==> f in Cleaned(files, now)
    ensures !InTime(f.msg, now) && f.msg.state == Pending ==>
      exists m: Msg :: File(f.name, m) in Cleaned(files, now) &&
        m.state == Expired && m.expiredAt == now.Floor && Remains(m, f.msg)
  {
    if f == files[0] {
      if !InTime(f.msg, now) && f.msg.state == Pending {
        assert File(f.name, Tombstone(f.msg, now.Floor)) in Retire(f, now);
      }
    } else {
      CleanedAt(files[1..], now, f);
      assert Cleaned(files, now) == Retire(files[0], now) + Cleaned(files[1..], now);
    }
  }

  /** What a query shows: of the messages in time, those of the thread if one is asked for, and
      of these the ones with the given ids, or else the pending ones, or the read ones too. */
  lemma QueryShowsIff(files: Inbox, q: Query, now: real, f: File)
    ensures f in Shown(files, q, now) <==>
      && f in files && f.msg.state != Expired && InTime(f.msg, now)
      && (q.thread.None? || q.thread.value == "" || f.msg.thread == q.thread)
      && (if q.ids != [] then f.msg.id in q.ids else q.includeRead || f.msg.state == Pending)
  {
    FilterElements(Selects(q), Cleaned(files, now));
    if f in Shown(files, q, now) {
      NothingStaleShown(files, q, now, f);
    }
    if f in files && f.msg.state != Expired {
      CleanedAt(files, now, f);
    }
  }

  lemma ViewKeeps(w: World, q: Query, now: real)
    requires Inv(w)
    ensures Inv(Viewed(w, q, now))
  {
    CleanKeeps(w, now);
    MarkKeeps(w.(files := Cleaned(w.files, now)), q, now.Floor);
  }

  lemma {:induction false} AckEachKeeps(files: Inbox, ids: seq<string>)
    requires DistinctNames(files)
    ensures DistinctNames(AckEach(files, ids))
    ensures forall f :: f in AckEach(files, ids) ==> f in files
    ensures forall f :: f in files && f.msg.id !in ids ==> f in AckEach(files, ids)
    decreases |ids|
  {
    if ids != [] {
      RemoveFirstKeeps(files, ids[0]);
      RemoveFirstWithin(files, ids[0]);
      AckEachKeeps(RemoveFirst(files, ids[0]), ids[1..]);
    }
  }

  lemma StepKeeps(w: World, s: Step)
    requires Inv(w) && Enabled(w, s)
    ensures Inv(Next(w, s))
  {
    match s
    case Deliver(name, msg) =>
      var w' := Next(w, s);
      forall f | f in w'.files ensures FileGood(w', f) {
        assert f in w.files ==> FileGood(w, f);
      }
      forall f | f in w.files ensures f.name != name {
        assert FileGood(w, f);
      }
    case Peek(q, now) => ViewKeeps(w, q, now);
    case Piggyback(now) => ViewKeeps(w, NEW_MAIL, now);
    case Ack(ids, now) =>
      AckEachKeeps(w.files, ids);
      ViewKeeps(w.(files := AckEach(w.files, ids)), NEW_MAIL, now);
  }

  // ----- how a copy can disappear -----

  predicate Acked(s: Step, m: Msg) { s.Ack? && m.id in s.ids }

  /** It ran out after being returned, or it is a tombstone more than seven days old. */
  predicate AgedOut(m: Msg, now: real) {
    || (m.state == Read && !InTime(m, now))
    || (m.state == Expired && m.expiredAt > 0 && now > (m.expiredAt + 7 * 24 * 3600) as real)
  }

  lemma {:induction false} CleanedHas(files: Inbox, now: real, f: File)
    requires DistinctNames(files) && f in files
    ensures f.name in NamesOf(Cleaned(files, now)) <==> !AgedOut(f.msg, now)
  {
    NamesOfAppend(Retire(files[0], now), Cleaned(files[1..], now));
    if f == files[0] {
      CleanedNamesWithin(files[1..], now);
      assert !AgedOut(f.msg, now) ==> Retire(f, now)[0] in Retire(f, now);
    } else {
      CleanedHas(files[1..], now, f);
    }
  }

  lemma {:induction false} MarkKeepsNames(p: File -> bool, files: Inbox, now: int)
    ensures NamesOf(MarkWhere(p, files, now)) == NamesOf(files)
  {
    if files != [] {
      MarkKeepsNames(p, files[1..], now);
      var marked := MarkWhere(p, files, now);
      assert marked == [marked[0]] + MarkWhere(p, files[1..], now);
      assert files == [files[0]] + files[1..];
      assert NamesOf(marked) == {marked[0].name} + NamesOf(MarkWhere(p, files[1..], now));
      assert NamesOf(files) == {files[0].name} + NamesOf(files[1..]);
    }
  }

  lemma ViewLoses(w: World, q: Query, now: real, f: File)
    requires Inv(w) && f in w.files
    ensures f.name in NamesOf(Viewed(w, q, now).files) <==> !AgedOut(f.msg, now)
  {
    CleanedHas(w.files, now, f);
    MarkKeepsNames(Selects(q), Cleaned(w.files, now), now.Floor);
  }

  /** Why the copy `n` is gone after a step: an ack of its id, or age; and a must-read
      message only ever by ack. */
  ghost predicate Cause(w: World, s: Step, n: string) {
    exists f :: f in w.files && f.name == n && n in w.sent &&
      (Acked(s, f.msg) ||
       (!s.Deliver? && !w.sent[n].mustRead && AgedOut(f.msg, s.now) && (f.msg.state == Read ==> n in w.returned)))
  }

  /** A delivery loses nothing, and its own file is there. */
  lemma DeliveryAdds(w: World, s: Step)
    requires s.Deliver?
    ensures NamesOf(Next(w, s).files) == NamesOf(w.files) + {s.name}
  {
    NamesOfAppend(w.files, [File(s.name, s.msg)]);
  }

  lemma LossHasCause(w: World, s: Step, n: string)
    requires Inv(w) && Enabled(w, s)
    requires n in NamesOf(w.files) && n !in NamesOf(Next(w, s).files)
    ensures Cause(w, s, n)
  {
    var f :| f in w.files && f.name == n;
    assert FileGood(w, f);
    if s.Deliver? {
      DeliveryAdds(w, s);
    }
    match s
    case Deliver(name, msg) =>
    case Peek(q, now) => ViewLoses(w, q, now, f);
    case Piggyback(now) => ViewLoses(w, NEW_MAIL, now, f);
    case Ack(ids, now) =>
      var w1 := w.(files := AckEach(w.files, ids));
      AckEachKeeps(w.files, ids);
      if f in w1.files {
        assert Inv(w1);
        ViewLoses(w1, NEW_MAIL, now, f);
      }
  }

  // ----- whole runs -----

  ghost predicate Reaches(w: World, run: seq<Step>, w': World)
    decreases |run|
  {
    if run == [] then w == w' else Enabled(w, run[0]) && Reaches(Next(w, run[0]), run[1..], w')
  }

  /** Some step of the run is to blame for the loss of `n`. */
  ghost predicate Explained(w: World, run: seq<Step>, n: string)
    decreases |run|
  {
    run != [] &&
      ((n !in NamesOf(Next(w, run[0]).files) && Cause(w, run[0], n)) || Explained(Next(w, run[0]), run[1..], n))
  }

  lemma {:induction false} RunExplains(w: World, run: seq<Step>, w': World, n: string)
    requires Inv(w) && Reaches(w, run, w') && (n in w.sent ==> n in NamesOf(w.files))
    ensures Inv(w')
    ensures n in w'.sent && n !in NamesOf(w'.files) ==> Explained(w, run, n)
    decreases |run|
  {
    if run != [] {
      var next := Next(w, run[0]);
      StepKeeps(w, run[0]);
      if run[0].Deliver? {
        DeliveryAdds(w, run[0]);
      }
      if n in next.sent && n !in NamesOf(next.files) {
        LossHasCause(w, run[0], n);
        RunKeeps(next, run[1..], w');
      } else {
        RunExplains(next, run[1..], w', n);
      }
    }
  }

  lemma {:induction false} RunKeeps(w: World, run: seq<Step>, w': World)
    requires Inv(w) && Reaches(w, run, w')
    ensures Inv(w')
    decreases |run|
  {
    if run != [] {
      StepKeeps(w, run[0]);
      RunKeeps(Next(w, run[0]), run[1..], w');
    }
  }

  /** Receipts are truthful. After any run from an empty inbox: a copy reads `read` exactly
      when some call returned it, so `expired` means nobody ever saw it; a must-read copy is
      never `expired`; and a copy that is gone was acked, or ran out after being returned, or
      was a tombstone past its keep, must-read copies only by ack. */
  lemma ReceiptsTruthful(run: seq<Step>, w': World, n: string)
    requires Reaches(World([], {}, map[]), run, w') && n in w'.sent
    ensures forall f :: f in w'.files && f.name == n ==>
      && (f.msg.state == Read <==> n in w'.returned)
      && (f.msg.state == Expired ==> n !in w'.returned && !w'.sent[n].mustRead)
      && Kept(f.msg, w'.sent[n])
    ensures n !in NamesOf(w'.files) ==> Explained(World([], {}, map[]), run, n)
  {
    RunExplains(World([], {}, map[]), run, w', n);
    forall f | f in w'.files && f.name == n ensures FileGood(w', f) {
    }
  }
}
