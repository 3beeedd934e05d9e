/** The life of a message copy in its recipient's inbox: expiry, peek, piggyback and ack
    (server.py). One call is one step, with one clock reading. */
module Mailbox {
  import opened Messages
  import opened Order

  const TOMBSTONE_TTL := 604800

  /** A file of the inbox, in listing order. */
  datatype File = File(name: string, msg: Msg)

  type Inbox = seq<File>

  datatype Query = Query(thread: Option<string>, includeRead: bool, ids: seq<string>)

  // ----- expiry -----

  /** What cleanup leaves of one file: nothing, the file, or its tombstone. */
  function Retire(f: File, now: real): Inbox {
    if f.msg.state == Expired then
      if f.msg.expiredAt > 0 && now > (f.msg.expiredAt + TOMBSTONE_TTL) as real then [] else [f]
    else if !IsExpired(f.msg, now) then [f]
    else if f.msg.state == Pending then [f.(msg := Tombstone(f.msg, now.Floor))]
    else []
  }

  function Cleaned(files: Inbox, now: real): Inbox {
    if files == [] then [] else Retire(files[0], now) + Cleaned(files[1..], now)
  }

  // ----- selection and marking -----

  predicate OnThread(m: Msg, thread: Option<string>) {
    thread.None? || thread.value == "" || m.thread == thread
  }

  function Selects(q: Query): File -> bool {
    (f: File) =>
      && OnThread(f.msg, q.thread)
      && (if q.ids != [] then f.msg.state != Expired && f.msg.id in q.ids
          else if q.includeRead then f.msg.state != Expired
          else f.msg.state == Pending)
  }

  function Put(files: Inbox, f: File): Inbox {
    if files == [] then [] else [if files[0].name == f.name then f else files[0]] + Put(files[1..], f)
  }

  /** `_mark_read`, one file after the other. */
  function MarkEach(files: Inbox, picked: Inbox, now: int): Inbox
    decreases |picked|
  {
    if picked == [] then files
    else if picked[0].msg.state != Pending then MarkEach(files, picked[1..], now)
    else MarkEach(Put(files, picked[0].(msg := Marked(picked[0].msg, now))), picked[1..], now)
  }

  /** The same in one pass: whatever the query picks is read now. */
  function MarkWhere(p: File -> bool, files: Inbox, now: int): Inbox {
    if files == [] then []
    else [if p(files[0]) then files[0].(msg := Marked(files[0].msg, now)) else files[0]] + MarkWhere(p, files[1..], now)
  }

  function RemoveFirst(files: Inbox, id: string): Inbox {
    if files == [] then [] else if files[0].msg.id == id then files[1..] else [files[0]] + RemoveFirst(files[1..], id)
  }

  function AckEach(files: Inbox, ids: seq<string>): Inbox
    decreases |ids|
  {
    if ids == [] then files else AckEach(RemoveFirst(files, ids[0]), ids[1..])
  }

  function HasId(id: string): File -> bool { (f: File) => f.msg.id == id }

  lemma {:induction false} RemoveFirstOf(files: Inbox, id: string, x: string)
    ensures
      var had, left := Filter(HasId(x), files), Filter(HasId(x), RemoveFirst(files, id));
      left == if x == id && had != [] then had[1..] else had
  {
    if files != [] {
      RemoveFirstOf(files[1..], id, x);
    }
  }

  /** Acking a list of ids removes, of the files with one id, as many from the front as the
      list names it, and leaves the rest of them as they were. */
  lemma {:induction false} AckRemoves(files: Inbox, ids: seq<string>, x: string)
    ensures
      var had, times := Filter(HasId(x), files), multiset(ids)[x];
      Filter(HasId(x), AckEach(files, ids)) == if times <= |had| then had[times..] else []
    decreases |ids|
  {
    if ids != [] {
      RemoveFirstOf(files, ids[0], x);
      AckRemoves(RemoveFirst(files, ids[0]), ids[1..], x);
      assert ids == [ids[0]] + ids[1..];
    }
  }

  const NEW_MAIL := Query(None, false, [])

  function AfterPeek(files: Inbox, q: Query, now: real): Inbox {
    MarkWhere(Selects(q), Cleaned(files, now), now.Floor)
  }

  function Shown(files: Inbox, q: Query, now: real): Inbox { Filter(Selects(q), Cleaned(files, now)) }

  ghost predicate DistinctNames(files: Inbox) {
    forall i, j :: 0 <= i < j < |files| ==> files[i].name != files[j].name
  }

  lemma {:induction false} MarkEachIsMarkWhere(p: File -> bool, done: Inbox, files: Inbox, now: int)
    requires DistinctNames(done + files)
    ensures MarkEach(done + files, Filter(p, files), now) == done + MarkWhere(p, files, now)
    decreases |files|
  {
    if files == [] {
    } else {
      var f := files[0];
      var g := if p(f) then f.(msg := Marked(f.msg, now)) else f;
      assert done + files == (done + [f]) + files[1..];
      if p(f) && f.msg.state == Pending {
        PutInPlace(done, f, files[1..], g);
      }
      assert DistinctNames((done + [g]) + files[1..]) by {
        forall i | 0 <= i < |done + files| ensures ((done + [g]) + files[1..])[i].name == (done + files)[i].name {
        }
      }
      MarkEachIsMarkWhere(p, done + [g], files[1..], now);
      assert (done + [g]) + MarkWhere(p, files[1..], now) == done + ([g] + MarkWhere(p, files[1..], now));
    }
  }

  lemma MarkShown(p: File -> bool, files: Inbox, now: int)
    requires DistinctNames(files)
    ensures MarkEach(files, Filter(p, files), now) == MarkWhere(p, files, now)
  {
    assert [] + files == files;
    MarkEachIsMarkWhere(p, [], files, now);
    assert [] + MarkWhere(p, files, now) == MarkWhere(p, files, now);
  }

  lemma {:induction false} PutInPlace(done: Inbox, f: File, rest: Inbox, g: File)
    requires DistinctNames(done + [f] + rest) && g.name == f.name
    ensures Put(done + [f] + rest, g) == done + [g] + rest
    decreases |done|
  {
    var all := done + [f] + rest;
    if done == [] {
      assert all == [f] + rest;
      assert all[1..] == rest;
      forall i | 0 <= i < |rest| ensures rest[i].name != g.name {
        assert all[0] == f && all[i + 1] == rest[i];
      }
      PutElsewhere(rest, g);
    } else {
      assert all[1..] == done[1..] + [f] + rest;
      assert all[0] == done[0] && all[|done|] == f;
      PutInPlace(done[1..], f, rest, g);
    }
  }

  lemma {:induction false} PutElsewhere(files: Inbox, g: File)
    requires forall i :: 0 <= i < |files| ==> files[i].name != g.name
    ensures Put(files, g) == files
  {
    if files != [] {
      PutElsewhere(files[1..], g);
    }
  }

  /** A message whose time ran out, read or not. */
  function RunOut(now: real): File -> bool { (f: File) => f.msg.state != Expired && IsExpired(f.msg, now) }

  method RetireFile(f: File, now: real) returns (left: Inbox, ended: bool)
    ensures left == Retire(f, now) && ended == RunOut(now)(f)
  {
    if f.msg.state == Expired {
      if f.msg.expiredAt > 0 && now > (f.msg.expiredAt + TOMBSTONE_TTL) as real {
        return [], false;
      }
      return [f], false;
    }
    if !IsExpired(f.msg, now) {
      return [f], false;
    }
    if f.msg.state == Pending {
      return [f.(msg := Tombstone(f.msg, now.Floor))], true;
    }
    return [], true;
  }

  // ----- the session's own inbox -----

  class Mail {
    var files: Inbox

    method CleanupExpired(now: real) returns (retired: nat)
      modifies this
      ensures files == Cleaned(old(files), now)
      ensures retired == |Filter(RunOut(now), old(files))|
    {
      retired := 0;
      var listed, kept := files, [];
      assert listed[0..] == listed;
      var i := 0;
      while i < |listed|
        invariant 0 <= i <= |listed|
        invariant kept + Cleaned(listed[i..], now) == Cleaned(listed, now)
        invariant retired + |Filter(RunOut(now), listed[i..])| == |Filter(RunOut(now), listed)|
      {
        assert listed[i..][1..] == listed[i + 1..];
        var left, ended := RetireFile(listed[i], now);
        Regroup(kept, left, Cleaned(listed[i + 1..], now));
        kept := kept + left;
        if ended {
          retired := retired + 1;
        }
        i := i + 1;
      }
      files := kept;
    }

    method ReadInbox(q: Query) returns (picked: Inbox)
      ensures picked == Filter(Selects(q), files)
    {
      picked := [];
      assert files[0..] == files;
      var i := 0;
      while i < |files|
        invariant 0 <= i <= |files|
        invariant picked + Filter(Selects(q), files[i..]) == Filter(Selects(q), files)
      {
        assert files[i..][1..] == files[i + 1..];
        var yes := Picks(q, files[i]);
        if yes {
          picked := picked + [files[i]];
        }
        i := i + 1;
      }
    }

    /** The tests `_read_inbox` and `_select_messages` put one file to, in their order. */
    method Picks(q: Query, f: File) returns (yes: bool)
      ensures yes == Selects(q)(f)
    {
      if f.msg.state == Expired { return false; }
      if q.ids == [] && !q.includeRead && f.msg.state != Pending { return false; }
      if q.thread.Some? && q.thread.value != "" && f.msg.thread != q.thread { return false; }
      if q.ids != [] && f.msg.id !in q.ids { return false; }
      return true;
    }

    method MarkRead(picked: Inbox, now: int)
      modifies this
      ensures files == MarkEach(old(files), picked, now)
    {
      assert picked[0..] == picked;
      var i := 0;
      while i < |picked|
        invariant 0 <= i <= |picked|
        invariant MarkEach(files, picked[i..], now) == MarkEach(old(files), picked, now)
      {
        assert picked[i..][1..] == picked[i + 1..];
        if picked[i].msg.state == Pending {
          files := Put(files, picked[i].(msg := Marked(picked[i].msg, now)));
        }
        i := i + 1;
      }
    }

    /** `peek`: what it returns is exactly what the query picks among the unexpired files,
        and all of it is read afterwards. */
    method Peek(q: Query, now: real) returns (shown: Inbox)
      requires DistinctNames(files)
      modifies this
      ensures shown == Shown(old(files), q, now)
      ensures files == AfterPeek(old(files), q, now)
    {
      CleanedDistinct(files, now);
      var retired := CleanupExpired(now);
      shown := ReadInbox(q);
      MarkShown(Selects(q), files, now.Floor);
      MarkRead(shown, now.Floor);
    }

    /** `_with_pending`: new mail rides along on another tool's result. */
    method WithPending(now: real) returns (shown: Inbox)
      requires DistinctNames(files)
      modifies this
      ensures shown == Shown(old(files), NEW_MAIL, now)
      ensures files == AfterPeek(old(files), NEW_MAIL, now)
    {
      shown := Peek(NEW_MAIL, now);
    }

    method Ack(ids: seq<string>, now: real) returns (acked: nat, shown: Inbox)
      requires DistinctNames(files)
      modifies this
      ensures acked == |old(files)| - |AckEach(old(files), ids)|
      ensures shown == Shown(AckEach(old(files), ids), NEW_MAIL, now)
      ensures files == AfterPeek(AckEach(old(files), ids), NEW_MAIL, now)
    {
      acked := 0;
      assert ids[0..] == ids;
      var i := 0;
      while i < |ids|
        invariant 0 <= i <= |ids|
        invariant DistinctNames(files) && acked + |files| == |old(files)|
        invariant AckEach(files, ids[i..]) == AckEach(old(files), ids)
      {
        assert ids[i..][1..] == ids[i + 1..];
        var n := |files|;
        RemoveFirstKeeps(files, ids[i]);
        RemoveFirstWithin(files, ids[i]);
        Unlink(ids[i]);
        if |files| < n {
          acked := acked + 1;
        }
        i := i + 1;
      }
      shown := WithPending(now);
    }

    /** Delete the first file that carries the id. */
    method Unlink(id: string)
      modifies this
      ensures files == RemoveFirst(old(files), id)
    {
      var i := 0;
      while i < |files| && files[i].msg.id != id
        invariant 0 <= i <= |files|
        invariant forall k :: 0 <= k < i ==> files[k].msg.id != id
      {
        i := i + 1;
      }
      RemoveFirstAt(files, id, i);
      if i < |files| {
        files := files[..i] + files[i + 1..];
      }
    }
  }

  lemma {:induction false} RemoveFirstAt(files: Inbox, id: string, i: nat)
    requires i <= |files| && forall k :: 0 <= k < i ==> files[k].msg.id != id
    requires i < |files| ==> files[i].msg.id == id
    ensures RemoveFirst(files, id) == if i < |files| then files[..i] + files[i + 1..] else files
    decreases i
  {
    if i > 0 {
      RemoveFirstAt(files[1..], id, i - 1);
      if i < |files| {
        assert files[..i] == [files[0]] + files[1..][..i - 1];
        assert files[i + 1..] == files[1..][i..];
      }
    }
  }

  // ----- distinct names stay distinct -----

  lemma {:induction false} CleanedFrom(files: Inbox, now: real)
    ensures forall g :: g in Cleaned(files, now) ==> exists f :: f in files && g in Retire(f, now)
    ensures forall f, g :: f in files && g in Retire(f, now) ==> g in Cleaned(files, now)
  {
    if files != [] {
      CleanedFrom(files[1..], now);
      assert files == [files[0]] + files[1..];
    }
  }

  function NamesOf(files: Inbox): set<string> { set f | f in files :: f.name }

  lemma NamesOfAppend(a: Inbox, b: Inbox)
    ensures NamesOf(a + b) == NamesOf(a) + NamesOf(b)
  {
  }

  lemma {:induction false} CleanedNamesWithin(files: Inbox, now: real)
    ensures NamesOf(Cleaned(files, now)) <= NamesOf(files)
  {
    if files != [] {
      CleanedNamesWithin(files[1..], now);
      NamesOfAppend(Retire(files[0], now), Cleaned(files[1..], now));
      NamesOfAppend([files[0]], files[1..]);
      assert files == [files[0]] + files[1..];
    }
  }

  lemma {:induction false} CleanedDistinct(files: Inbox, now: real)
    requires DistinctNames(files)
    ensures DistinctNames(Cleaned(files, now))
  {
    if files != [] {
      CleanedDistinct(files[1..], now);
      CleanedNamesWithin(files[1..], now);
      var rest := Cleaned(files[1..], now);
      forall i | 0 <= i < |rest| ensures rest[i].name != files[0].name {
        assert rest[i].name in NamesOf(rest);
      }
    }
  }

  lemma {:induction false} RemoveFirstWithin(files: Inbox, id: string)
    ensures |files| - 1 <= |RemoveFirst(files, id)| <= |files|
    ensures forall f :: f in RemoveFirst(files, id) ==> f in files
    ensures forall f :: f in files && f.msg.id != id ==> f in RemoveFirst(files, id)
  {
    if files != [] {
      RemoveFirstWithin(files[1..], id);
      assert files == [files[0]] + files[1..];
    }
  }

  lemma {:induction false} RemoveFirstKeeps(files: Inbox, id: string)
    requires DistinctNames(files)
    ensures DistinctNames(RemoveFirst(files, id))
  {
    if files == [] || files[0].msg.id == id {
    } else {
      RemoveFirstKeeps(files[1..], id);
      RemoveFirstWithin(files[1..], id);
      var rest := RemoveFirst(files[1..], id);
      forall f | f in rest ensures f.name != files[0].name {
        assert f in files[1..];
      }
    }
  }
}
