/** The viewer's transcript (tui/model.go): capped, deduplicated by id, sorted and indexed,
    against an unbounded history that forgets nothing. */
module Transcript {
  import opened Messages
  import opened Order

  const MAX_TRANSCRIPT := 5000

  /** A message as the viewer holds it; `body` stands for the fields that do not order it. */
  datatype Message = Message(id: string, sortMs: int, body: string)

  predicate NotAfter(a: Message, b: Message) {
    a.sortMs < b.sortMs || (a.sortMs == b.sortMs && StrLeq(a.id, b.id))
  }

  function ByKey(): (Message, Message) -> bool { NotAfter }

  predicate HasId(s: seq<Message>, id: string) { exists i :: 0 <= i < |s| && s[i].id == id }

  ghost predicate DistinctIds(s: seq<Message>) { forall i, j :: 0 <= i < j < |s| ==> s[i].id != s[j].id }

  ghost predicate Ordered(s: seq<Message>) { SortedBy(ByKey(), s) && DistinctIds(s) }

  /** By sort key, and by id where keys are equal. */
  ghost predicate InKeyOrder(s: seq<Message>) {
    forall i, j :: 0 <= i < j < |s| ==>
      s[i].sortMs <= s[j].sortMs && (s[i].sortMs == s[j].sortMs ==> StrLeq(s[i].id, s[j].id))
  }

  lemma OrderedInKeyOrder(s: seq<Message>)
    requires Ordered(s)
    ensures InKeyOrder(s)
  {
    forall i, j | 0 <= i < j < |s| ensures NotAfter(s[i], s[j]) {
      assert ByKey()(s[i], s[j]);
    }
  }

  // ----- the unbounded history -----

  function Replace(s: seq<Message>, m: Message): seq<Message> {
    if s == [] then [] else [if s[0].id == m.id then m else s[0]] + Replace(s[1..], m)
  }

  /** Keep everything: a known id takes the new content, a new one goes to its place. */
  function Record(s: seq<Message>, m: Message): seq<Message> {
    if HasId(s, m.id) then Replace(s, m) else Insert(ByKey(), m, s)
  }

  function RecordAll(s: seq<Message>, msgs: seq<Message>): seq<Message>
    decreases |msgs|
  {
    if msgs == [] then s else RecordAll(Record(s, msgs[0]), msgs[1..])
  }

  function LastOf(s: seq<Message>, n: nat): seq<Message> { if |s| <= n then s else s[|s| - n..] }

  /** The content an id was last seen with. */
  function Latest(msgs: seq<Message>, id: string): Option<Message> {
    if msgs == [] then None
    else if msgs[|msgs| - 1].id == id then Some(msgs[|msgs| - 1])
    else Latest(msgs[..|msgs| - 1], id)
  }

  lemma ByKeyPreorder()
    ensures TotalPreorder(ByKey())
  {
    forall a, b ensures ByKey()(a, b) || ByKey()(b, a) {
      StrLeqTotal(a.id, b.id);
      assert NotAfter(a, b) || NotAfter(b, a);
    }
    forall a, b, c | ByKey()(a, b) && ByKey()(b, c) ensures ByKey()(a, c) {
      assert NotAfter(a, b) && NotAfter(b, c);
      if StrLeq(a.id, b.id) && StrLeq(b.id, c.id) {
        StrLeqTransitive(a.id, b.id, c.id);
      }
    }
  }

  /** A message fits a list when its id, if known there, has the same key. */
  ghost predicate Fits(s: seq<Message>, m: Message) {
    forall i :: 0 <= i < |s| && s[i].id == m.id ==> s[i].sortMs == m.sortMs
  }

  lemma {:induction false} ReplaceAt(s: seq<Message>, m: Message)
    ensures |Replace(s, m)| == |s|
    ensures forall i :: 0 <= i < |s| ==> Replace(s, m)[i] == if s[i].id == m.id then m else s[i]
  {
    if s != [] {
      ReplaceAt(s[1..], m);
    }
  }

  lemma InsertElements(s: seq<Message>, m: Message)
    ensures forall x :: x in Insert(ByKey(), m, s) <==> x == m || x in s
    ensures |Insert(ByKey(), m, s)| == |s| + 1
  {
    var r := Insert(ByKey(), m, s);
    InsertMultiset(ByKey(), m, s);
    assert |multiset(r)| == |multiset(s)| + 1;
    forall x ensures x in r <==> x == m || x in s {
      assert x in r <==> x in multiset(r);
    }
  }

  lemma {:induction false} InsertDistinct(s: seq<Message>, m: Message)
    requires DistinctIds(s) && !HasId(s, m.id)
    ensures DistinctIds(Insert(ByKey(), m, s))
  {
    if s == [] || ByKey()(m, s[0]) {
    } else {
      InsertDistinct(s[1..], m);
      InsertElements(s[1..], m);
      var rest := Insert(ByKey(), m, s[1..]);
      forall i | 0 <= i < |rest| ensures rest[i].id != s[0].id {
        assert rest[i] in rest;
      }
    }
  }

  lemma RecordKeeps(s: seq<Message>, m: Message)
    requires Ordered(s) && Fits(s, m)
    ensures Ordered(Record(s, m))
  {
    if HasId(s, m.id) {
      ReplaceAt(s, m);
      var r := Replace(s, m);
      forall i, j | 0 <= i < j < |r| ensures ByKey()(r[i], r[j]) {
        assert ByKey()(s[i], s[j]);
        assert r[i].sortMs == s[i].sortMs && r[i].id == s[i].id;
        assert r[j].sortMs == s[j].sortMs && r[j].id == s[j].id;
      }
    } else {
      ByKeyPreorder();
      InsertSorted(ByKey(), m, s);
      InsertDistinct(s, m);
    }
  }

  // ----- capping commutes with recording -----

  lemma FirstIsLeast(s: seq<Message>, m: Message, n: nat)
    requires Ordered(s) && |s| > n && ByKey()(m, s[0])
    ensures !HasId(s[1..], m.id) ==> LastOf(Record(LastOf(s, n), m), n) == LastOf(s, n)
  {
    var t := LastOf(s, n);
    if !HasId(s[1..], m.id) {
      assert t == s[1..][|s| - 1 - n..];
      assert !HasId(t, m.id);
      if t != [] {
        ByKeyPreorder();
        assert ByKey()(s[0], t[0]);
      }
      assert Record(t, m) == [m] + t;
    }
  }

  lemma {:induction false} ReplaceNone(s: seq<Message>, m: Message)
    requires !HasId(s, m.id)
    ensures Replace(s, m) == s
  {
    ReplaceAt(s, m);
  }

  lemma HasIdCons(s: seq<Message>, id: string)
    requires s != []
    ensures HasId(s, id) <==> s[0].id == id || HasId(s[1..], id)
  {
    if HasId(s[1..], id) {
      var i :| 0 <= i < |s[1..]| && s[1..][i].id == id;
      assert s[i + 1].id == id;
    }
    if HasId(s, id) && s[0].id != id {
      var i :| 0 <= i < |s| && s[i].id == id;
      assert s[1..][i - 1].id == id;
    }
  }

  /** Recording at the front, or somewhere behind it. */
  lemma RecordCons(s: seq<Message>, m: Message)
    requires Ordered(s) && Fits(s, m) && s != []
    ensures |Record(s[1..], m)| >= |s| - 1
    ensures s[0].id == m.id ==> Record(s, m) == [m] + s[1..] && !HasId(s[1..], m.id) && ByKey()(m, s[0])
    ensures s[0].id != m.id && !HasId(s[1..], m.id) && ByKey()(m, s[0]) ==> Record(s, m) == [m] + s
    ensures s[0].id != m.id && (HasId(s[1..], m.id) || !ByKey()(m, s[0])) ==> Record(s, m) == [s[0]] + Record(s[1..], m)
  {
    HasIdCons(s, m.id);
    ReplaceAt(s[1..], m);
    InsertElements(s[1..], m);
    if s[0].id == m.id {
      ReplaceNone(s[1..], m);
      StrLeqTotal(m.id, m.id);
    }
  }

  lemma LastOfCons(a: Message, t: seq<Message>, n: nat)
    requires |t| >= n
    ensures LastOf([a] + t, n) == LastOf(t, n)
  {
  }

  /** Recording into the capped list and capping again gives the cap of the full list. */
  lemma {:induction false} CapThenRecord(s: seq<Message>, m: Message, n: nat)
    requires Ordered(s) && Fits(s, m)
    ensures LastOf(Record(s, m), n) == LastOf(Record(LastOf(s, n), m), n)
  {
    if |s| > n {
      RecordCons(s, m);
      assert s == [s[0]] + s[1..];
      LastOfCons(s[0], s[1..], n);
      if s[0].id != m.id && (HasId(s[1..], m.id) || !ByKey()(m, s[0])) {
        CapThenRecord(s[1..], m, n);
        LastOfCons(s[0], Record(s[1..], m), n);
      } else {
        FirstIsLeast(s, m, n);
        LastOfCons(m, s[1..], n);
        LastOfCons(m, s, n);
      }
    }
  }

  // ----- whole batches -----

  /** Messages of both lists that share an id share the key. */
  ghost predicate Agree(a: seq<Message>, b: seq<Message>) {
    forall x, y :: x in a && y in b && x.id == y.id ==> x.sortMs == y.sortMs
  }

  lemma RecordElements(s: seq<Message>, m: Message)
    ensures m in Record(s, m)
    ensures forall x :: x in Record(s, m) ==> x == m || x in s
    ensures forall x :: x in s && x.id != m.id ==> x in Record(s, m)
  {
    var r := Record(s, m);
    if HasId(s, m.id) {
      ReplaceAt(s, m);
      var i :| 0 <= i < |s| && s[i].id == m.id;
      assert r[i] == m;
      forall x | x in s && x.id != m.id ensures x in r {
        var j :| 0 <= j < |s| && s[j] == x;
        assert r[j] == x;
      }
    } else {
      InsertElements(s, m);
    }
  }

  lemma {:induction false} RecordAllOrdered(s: seq<Message>, msgs: seq<Message>)
    requires Ordered(s) && Agree(s, msgs) && Agree(msgs, msgs)
    ensures Ordered(RecordAll(s, msgs))
    decreases |msgs|
  {
    if msgs != [] {
      assert msgs[0] in msgs;
      RecordKeeps(s, msgs[0]);
      RecordElements(s, msgs[0]);
      RecordAllOrdered(Record(s, msgs[0]), msgs[1..]);
    }
  }

  /** Two lists with the same cap keep having the same cap. */
  lemma {:induction false} CapThenRecordAll(s: seq<Message>, t: seq<Message>, msgs: seq<Message>, n: nat)
    requires Ordered(s) && Ordered(t) && LastOf(s, n) == LastOf(t, n)
    requires Agree(s, msgs) && Agree(t, msgs) && Agree(msgs, msgs)
    ensures LastOf(RecordAll(s, msgs), n) == LastOf(RecordAll(t, msgs), n)
    decreases |msgs|
  {
    if msgs != [] {
      var m := msgs[0];
      assert m in msgs;
      CapThenRecord(s, m, n);
      CapThenRecord(t, m, n);
      RecordKeeps(s, m);
      RecordKeeps(t, m);
      RecordElements(s, m);
      RecordElements(t, m);
      CapThenRecordAll(Record(s, m), Record(t, m), msgs[1..], n);
    }
  }

  lemma {:induction false} RecordAllAppend(s: seq<Message>, a: seq<Message>, b: seq<Message>)
    ensures RecordAll(s, a + b) == RecordAll(RecordAll(s, a), b)
    decreases |a|
  {
    if a == [] {
      assert a + b == b;
    } else {
      assert (a + b)[1..] == a[1..] + b;
      RecordAllAppend(Record(s, a[0]), a[1..], b);
    }
  }

  lemma DistinctHasNoTies(s: seq<Message>)
    requires DistinctIds(s)
    ensures NoTies(ByKey(), s)
  {
    forall x, y | x in s && y in s && ByKey()(x, y) && ByKey()(y, x) ensures x == y {
      assert NotAfter(x, y) && NotAfter(y, x);
      StrLeqTotal(x.id, y.id);
      var i :| 0 <= i < |s| && s[i] == x;
      var j :| 0 <= j < |s| && s[j] == y;
      assert i == j;
    }
  }

  // ----- the viewer -----

  ghost predicate IsIndex(seen: map<string, nat>, t: seq<Message>) {
    && (forall i :: 0 <= i < |t| ==> t[i].id in seen && seen[t[i].id] == i)
    && (forall id :: id in seen ==> seen[id] < |t| && t[seen[id]].id == id)
  }

  lemma {:induction false} ReplaceIsUpdate(t: seq<Message>, i: nat, m: Message)
    requires DistinctIds(t) && i < |t| && t[i].id == m.id
    ensures Replace(t, m) == t[i := m]
  {
    ReplaceAt(t, m);
  }

  /** Sorting a batch in at once gives what recording it one by one gives. */
  lemma SortIsRecordAll(t: seq<Message>, merged: seq<Message>)
    requires multiset(t) == multiset(merged) && Ordered(merged)
    ensures StableSort(ByKey(), t) == merged
  {
    ByKeyPreorder();
    SortSorted(ByKey(), t);
    SortMultiset(ByKey(), t);
    DistinctHasNoTies(merged);
    SortedUnique(ByKey(), StableSort(ByKey(), t), merged);
  }

  lemma IndexUpdate(seen: map<string, nat>, t: seq<Message>, m: Message)
    requires IsIndex(seen, t)
    ensures DistinctIds(t)
    ensures m.id in seen ==> IsIndex(seen, t[seen[m.id] := m])
    ensures m.id !in seen ==> IsIndex(seen[m.id := |t|], t + [m])
  {
    forall i, j | 0 <= i < j < |t| ensures t[i].id != t[j].id {
      assert seen[t[i].id] == i && seen[t[j].id] == j;
    }
  }

  /** A message of a snapshot: a known id in place, a new one at the end. */
  function Taken(t: seq<Message>, m: Message): seq<Message> {
    if HasId(t, m.id) then Replace(t, m) else t + [m]
  }

  function TakeAll(t: seq<Message>, msgs: seq<Message>): seq<Message>
    decreases |msgs|
  {
    if msgs == [] then t else TakeAll(Taken(t, msgs[0]), msgs[1..])
  }

  /** What one snapshot makes of the list: without a new id nothing is sorted or cut. */
  function Accumulated(t: seq<Message>, msgs: seq<Message>, max: nat): seq<Message> {
    var all := TakeAll(t, msgs);
    if |all| == |t| then all else LastOf(StableSort(ByKey(), all), max)
  }

  lemma {:induction false} TakeAllAppend(t: seq<Message>, a: seq<Message>, b: seq<Message>)
    ensures TakeAll(t, a + b) == TakeAll(TakeAll(t, a), b)
    decreases |a|
  {
    if a == [] {
      assert a + b == b;
    } else {
      assert (a + b)[1..] == a[1..] + b;
      TakeAllAppend(Taken(t, a[0]), a[1..], b);
    }
  }

  lemma TakeAllStep(t: seq<Message>, msgs: seq<Message>, i: nat)
    requires i < |msgs|
    ensures TakeAll(t, msgs[..i + 1]) == Taken(TakeAll(t, msgs[..i]), msgs[i])
  {
    assert msgs[..i + 1] == msgs[..i] + [msgs[i]];
    TakeAllAppend(t, msgs[..i], [msgs[i]]);
    assert [msgs[i]][1..] == [];
  }

  class Model {
    var transcript: seq<Message>
    var seen: map<string, nat>

    /** `seen` is the inverse index of the transcript. */
    ghost predicate Valid()
      reads this
    {
      IsIndex(seen, transcript)
    }

    constructor ()
      ensures Valid() && transcript == []
    {
      transcript, seen := [], map[];
    }

    method Accumulate(msgs: seq<Message>)
      requires Valid()
      modifies this
      ensures Valid() && transcript == Accumulated(old(transcript), msgs, MAX_TRANSCRIPT)
    {
      var added := Merge(msgs);
      if !added {
        return;
      }
      IndexUpdate(seen, transcript, Message("", 0, ""));
      SortKeepsDistinct(transcript);
      transcript := StableSort(ByKey(), transcript);
      if |transcript| > MAX_TRANSCRIPT {
        transcript := transcript[|transcript| - MAX_TRANSCRIPT..];
      }
      Reindex();
    }

    /** Take each message in. */
    method Merge(msgs: seq<Message>) returns (added: bool)
      requires Valid()
      modifies this`transcript, this`seen
      ensures Valid() && transcript == TakeAll(old(transcript), msgs)
      ensures added <==> |transcript| != |old(transcript)|
    {
      added := false;
      ghost var start := transcript;
      var i := 0;
      while i < |msgs|
        invariant 0 <= i <= |msgs|
        invariant Valid() && transcript == TakeAll(start, msgs[..i])
        invariant |transcript| >= |start| && (added <==> |transcript| != |start|)
      {
        TakeAllStep(start, msgs, i);
        var more := Take(msgs[i]);
        added := added || more;
        i := i + 1;
      }
      assert msgs[..i] == msgs;
    }

    method Take(m: Message) returns (added: bool)
      requires Valid()
      modifies this`transcript, this`seen
      ensures Valid() && transcript == Taken(old(transcript), m)
      ensures |transcript| == |old(transcript)| + if added then 1 else 0
    {
      IndexUpdate(seen, transcript, m);
      assert m.id in seen <==> HasId(transcript, m.id) by {
        if m.id in seen {
          assert transcript[seen[m.id]].id == m.id;
        }
      }
      if m.id in seen {
        ReplaceIsUpdate(transcript, seen[m.id], m);
        transcript := transcript[seen[m.id] := m];
        return false;
      }
      seen := seen[m.id := |transcript|];
      transcript := transcript + [m];
      return true;
    }

    method Reindex()
      requires DistinctIds(transcript)
      modifies this`seen
      ensures IsIndex(seen, transcript)
    {
      seen := map[];
      var i := 0;
      while i < |transcript|
        invariant 0 <= i <= |transcript|
        invariant IsIndex(seen, transcript[..i])
      {
        assert transcript[..i + 1] == transcript[..i] + [transcript[i]];
        seen := seen[transcript[i].id := i];
        i := i + 1;
      }
      assert transcript[..i] == transcript;
    }
  }

  // ----- the transcript against the history -----

  /** The content an id has after a batch: the batch's last word, else what it was. */
  ghost predicate Current(s: seq<Message>, msgs: seq<Message>, x: Message) {
    if Latest(msgs, x.id).Some? then Latest(msgs, x.id).value == x else x in s
  }

  lemma TakenElements(s: seq<Message>, m: Message)
    requires DistinctIds(s)
    ensures DistinctIds(Taken(s, m))
    ensures forall x :: x in Taken(s, m) <==> x == m || (x in s && x.id != m.id)
  {
    var r := Taken(s, m);
    if HasId(s, m.id) {
      ReplaceAt(s, m);
      var i :| 0 <= i < |s| && s[i].id == m.id;
      assert r[i] == m;
      forall x ensures x in r <==> x == m || (x in s && x.id != m.id) {
        if x in s && x.id != m.id {
          var j :| 0 <= j < |s| && s[j] == x;
          assert r[j] == x;
        }
      }
    } else {
      forall x | x in s ensures x.id != m.id {
        var j :| 0 <= j < |s| && s[j] == x;
      }
    }
  }

  lemma {:induction false} TakeAllElements(s: seq<Message>, msgs: seq<Message>)
    requires DistinctIds(s)
    ensures DistinctIds(TakeAll(s, msgs))
    ensures forall x :: x in TakeAll(s, msgs) <==> Current(s, msgs, x)
    decreases |msgs|
  {
    if msgs != [] {
      var n := |msgs| - 1;
      assert msgs[..n + 1] == msgs;
      TakeAllStep(s, msgs, n);
      TakeAllElements(s, msgs[..n]);
      TakenElements(TakeAll(s, msgs[..n]), msgs[n]);
      forall x ensures x in TakeAll(s, msgs) <==> Current(s, msgs, x) {
        LatestHasId(msgs[..n], x.id);
      }
    }
  }

  lemma SameElementsSameMultiset(a: seq<Message>, b: seq<Message>)
    requires DistinctIds(a) && DistinctIds(b) && forall x :: x in a <==> x in b
    ensures multiset(a) == multiset(b)
  {
    forall x ensures multiset(a)[x] == multiset(b)[x] {
      DistinctCount(a, x);
      DistinctCount(b, x);
    }
  }

  lemma {:induction false} RecordAllIsCurrent(s: seq<Message>, msgs: seq<Message>)
    requires DistinctIds(s)
    ensures DistinctIds(RecordAll(s, msgs))
    ensures forall x :: x in RecordAll(s, msgs) <==> Current(s, msgs, x)
    decreases |msgs|
  {
    if msgs != [] {
      var n := |msgs| - 1;
      assert msgs == msgs[..n] + [msgs[n]];
      RecordAllAppend(s, msgs[..n], [msgs[n]]);
      RecordAllIsCurrent(s, msgs[..n]);
      RecordOneElements(RecordAll(s, msgs[..n]), msgs[n]);
      forall x ensures x in RecordAll(s, msgs) <==> Current(s, msgs, x) {
        LatestHasId(msgs[..n], x.id);
      }
    }
  }

  lemma RecordOneElements(s: seq<Message>, m: Message)
    requires DistinctIds(s)
    ensures RecordAll(s, [m]) == Record(s, m) && DistinctIds(Record(s, m))
    ensures forall x :: x in Record(s, m) <==> x == m || (x in s && x.id != m.id)
  {
    assert [m][1..] == [];
    TakenElements(s, m);
    if !HasId(s, m.id) {
      InsertElements(s, m);
      InsertDistinct(s, m);
    }
  }

  /** Without a new id recording is taking in place. */
  lemma {:induction false} NoneNew(s: seq<Message>, msgs: seq<Message>)
    ensures |TakeAll(s, msgs)| >= |s|
    ensures |TakeAll(s, msgs)| == |s| ==> RecordAll(s, msgs) == TakeAll(s, msgs)
    decreases |msgs|
  {
    if msgs != [] {
      ReplaceAt(s, msgs[0]);
      NoneNew(Taken(s, msgs[0]), msgs[1..]);
    }
  }

  /** While ids keep their keys, one snapshot comes to recording its messages one by one. */
  lemma AccumulatedIsRecorded(t: seq<Message>, msgs: seq<Message>, max: nat)
    requires Ordered(t) && |t| <= max && Agree(t, msgs) && Agree(msgs, msgs)
    ensures Accumulated(t, msgs, max) == LastOf(RecordAll(t, msgs), max)
  {
    NoneNew(t, msgs);
    if |TakeAll(t, msgs)| != |t| {
      RecordAllOrdered(t, msgs);
      TakeAllElements(t, msgs);
      RecordAllIsCurrent(t, msgs);
      SameElementsSameMultiset(TakeAll(t, msgs), RecordAll(t, msgs));
      SortIsRecordAll(TakeAll(t, msgs), RecordAll(t, msgs));
    }
  }

  function Flat(snaps: seq<seq<Message>>): seq<Message> {
    if snaps == [] then [] else Flat(snaps[..|snaps| - 1]) + snaps[|snaps| - 1]
  }

  /** The transcript after these snapshots. */
  function Viewed(snaps: seq<seq<Message>>, max: nat): seq<Message> {
    if snaps == [] then [] else Accumulated(Viewed(snaps[..|snaps| - 1], max), snaps[|snaps| - 1], max)
  }

  /** Bounded refines unbounded: while every id keeps its key, the transcript after any
      snapshots is the newest part of a history that forgets nothing. */
  lemma {:induction false} ViewedIsCap(snaps: seq<seq<Message>>, max: nat)
    requires Agree(Flat(snaps), Flat(snaps))
    ensures Viewed(snaps, max) == LastOf(RecordAll([], Flat(snaps)), max)
  {
    if snaps != [] {
      var before, last := snaps[..|snaps| - 1], snaps[|snaps| - 1];
      AgreeWithin(Flat(before), last);
      ViewedIsCap(before, max);
      CapIsOrdered(Flat(before), last, max);
      AccumulatedIsRecorded(Viewed(before, max), last, max);
    }
  }

  lemma AgreeWithin(history: seq<Message>, msgs: seq<Message>)
    requires Agree(history + msgs, history + msgs)
    ensures Agree(history, history) && Agree(history, msgs) && Agree(msgs, msgs)
  {
    forall x, y | (x in history || x in msgs) && (y in history || y in msgs) && x.id == y.id
      ensures x.sortMs == y.sortMs
    {
      assert x in history + msgs && y in history + msgs;
    }
  }

  /** The cap of a history is ordered, and recording more into the cap or into the full
      history comes to the same cap. */
  lemma CapIsOrdered(history: seq<Message>, msgs: seq<Message>, max: nat)
    requires Agree(history + msgs, history + msgs)
    ensures
      var t := LastOf(RecordAll([], history), max);
      && Ordered(t) && |t| <= max && Agree(t, msgs) && Agree(msgs, msgs)
      && LastOf(RecordAll(t, msgs), max) == LastOf(RecordAll([], history + msgs), max)
  {
    var u := RecordAll([], history);
    var t := LastOf(u, max);
    AgreeWithin(history, msgs);
    RecordAllOrdered([], history);
    RecordAllElements([], history);
    CapThenRecordAll(t, u, msgs, max);
    RecordAllAppend([], history, msgs);
  }

  lemma {:induction false} RecordAllElements(s: seq<Message>, msgs: seq<Message>)
    ensures forall x :: x in RecordAll(s, msgs) ==> x in s || x in msgs
    decreases |msgs|
  {
    if msgs != [] {
      RecordElements(s, msgs[0]);
      RecordAllElements(Record(s, msgs[0]), msgs[1..]);
    }
  }

  // ----- what the transcript holds -----

  /** The unbounded history holds exactly the latest content of every id ever seen. */
  lemma {:induction false} HistoryHoldsLatest(msgs: seq<Message>)
    requires Agree(msgs, msgs)
    ensures Ordered(RecordAll([], msgs))
    ensures forall m :: m in RecordAll([], msgs) <==> Latest(msgs, m.id) == Some(m)
  {
    RecordAllOrdered([], msgs);
    if msgs != [] {
      var n := |msgs| - 1;
      var before, m := msgs[..n], msgs[n];
      assert msgs == before + [m];
      HistoryHoldsLatest(before);
      RecordAllAppend([], before, [m]);
      RecordElements(RecordAll([], before), m);
      var r := RecordAll([], msgs);
      forall x ensures x in r <==> Latest(msgs, x.id) == Some(x) {
        if x.id == m.id && x in r {
          var i :| 0 <= i < |r| && r[i] == x;
          var j :| 0 <= j < |r| && r[j] == m;
          assert i == j;
        }
      }
    }
  }

  lemma LastOfOrdered(u: seq<Message>, max: nat)
    requires Ordered(u)
    ensures Ordered(LastOf(u, max)) && |LastOf(u, max)| <= max && forall x :: x in LastOf(u, max) ==> x in u
  {
  }

  lemma LeftOutIsOlder(u: seq<Message>, max: nat, m: Message)
    requires Ordered(u) && m in u
    ensures m in LastOf(u, max) || (|LastOf(u, max)| == max && forall x :: x in LastOf(u, max) ==> ByKey()(m, x))
  {
    var t := LastOf(u, max);
    var i :| 0 <= i < |u| && u[i] == m;
    if |u| > max {
      var cut := |u| - max;
      assert t == u[cut..];
      if i >= cut {
        assert t[i - cut] == m;
      } else {
        forall x | x in t ensures ByKey()(m, x) {
          var j :| 0 <= j < |t| && t[j] == x;
          assert x == u[j + cut];
        }
      }
    }
  }

  /** Bounded equals unbounded: the transcript after any snapshots holds the latest content
      of its ids; if it leaves anything out it is full, and what it leaves out sorts before
      all of it. */
  lemma TranscriptIsNewest(msgs: seq<Message>, m: Message, max: nat)
    requires Agree(msgs, msgs) && Latest(msgs, m.id) == Some(m)
    ensures
      var t := LastOf(RecordAll([], msgs), max);
      && InKeyOrder(t) && DistinctIds(t) && |t| <= max
      && (forall x :: x in t ==> Latest(msgs, x.id) == Some(x))
      && (m in t || (|t| == max && forall x :: x in t ==> m.sortMs <= x.sortMs))
  {
    var u := RecordAll([], msgs);
    HistoryHoldsLatest(msgs);
    LastOfOrdered(u, max);
    LeftOutIsOlder(u, max, m);
    OrderedInKeyOrder(LastOf(u, max));
    forall x | ByKey()(m, x) ensures m.sortMs <= x.sortMs {
    }
  }

  // ----- snapshots -----

  function First(msgs: seq<Message>, id: string): Option<Message> {
    if msgs == [] then None else if msgs[0].id == id then Some(msgs[0]) else First(msgs[1..], id)
  }

  /** The content a snapshot shows for an id: the inbox copy read last, else the first lane
      record. */
  function Winner(inbox: seq<Message>, git: seq<Message>, id: string): Option<Message> {
    if Latest(inbox, id).Some? then Latest(inbox, id) else First(git, id)
  }

  ghost predicate Picks(byId: map<string, Message>, inbox: seq<Message>, git: seq<Message>) {
    forall id :: (id in byId <==> Winner(inbox, git, id).Some?) &&
      (id in byId ==> Winner(inbox, git, id) == Some(byId[id]))
  }

  lemma {:induction false} FirstAppend(git: seq<Message>, m: Message, id: string)
    ensures First(git + [m], id) ==
      if First(git, id).Some? then First(git, id) else if m.id == id then Some(m) else None
  {
    if git == [] {
      assert git + [m] == [m] && First([m][1..], id) == None;
    } else {
      assert (git + [m])[1..] == git[1..] + [m];
      FirstAppend(git[1..], m, id);
    }
  }

  lemma {:induction false} LatestHasId(msgs: seq<Message>, id: string)
    ensures Latest(msgs, id).Some? ==> Latest(msgs, id).value.id == id
  {
    if msgs != [] {
      LatestHasId(msgs[..|msgs| - 1], id);
    }
  }

  lemma {:induction false} FirstHasId(msgs: seq<Message>, id: string)
    ensures First(msgs, id).Some? ==> First(msgs, id).value.id == id
  {
    if msgs != [] {
      FirstHasId(msgs[1..], id);
    }
  }

  method IndexById(inbox: seq<Message>, git: seq<Message>) returns (byId: map<string, Message>)
    ensures Picks(byId, inbox, git)
  {
    byId := map[];
    var i := 0;
    while i < |inbox|
      invariant 0 <= i <= |inbox|
      invariant Picks(byId, inbox[..i], [])
    {
      assert inbox[..i + 1] == inbox[..i] + [inbox[i]];
      byId := byId[inbox[i].id := inbox[i]];
      i := i + 1;
    }
    assert inbox[..i] == inbox;
    i := 0;
    while i < |git|
      invariant 0 <= i <= |git|
      invariant Picks(byId, inbox, git[..i])
    {
      assert git[..i + 1] == git[..i] + [git[i]];
      forall id ensures First(git[..i + 1], id) ==
        if First(git[..i], id).Some? then First(git[..i], id) else if git[i].id == id then Some(git[i]) else None
      {
        FirstAppend(git[..i], git[i], id);
      }
      if git[i].id !in byId {
        byId := byId[git[i].id := git[i]];
      }
      i := i + 1;
    }
    assert git[..i] == git;
  }

  /** `mergeMessages`: one entry per id, the inbox copy before the lane record, in order.
      The map is walked in no particular order; the result does not depend on it. */
  method MergeMessages(inbox: seq<Message>, git: seq<Message>) returns (out: seq<Message>)
    ensures InKeyOrder(out) && DistinctIds(out)
    ensures forall m :: m in out <==> Winner(inbox, git, m.id) == Some(m)
  {
    var byId := IndexById(inbox, git);
    forall id ensures id in byId ==> byId[id].id == id {
      LatestHasId(inbox, id);
      FirstHasId(git, id);
    }
    out := [];
    var left := byId.Keys;
    while left != {}
      invariant left <= byId.Keys && DistinctIds(out)
      invariant forall m :: m in out <==> m.id in byId && byId[m.id] == m && m.id !in left
      decreases |left|
    {
      var id :| id in left;
      forall i | 0 <= i < |out| ensures out[i].id != id {
        assert out[i] in out;
      }
      out := out + [byId[id]];
      left := left - {id};
    }
    ByKeyPreorder();
    SortSorted(ByKey(), out);
    SortMultiset(ByKey(), out);
    SortKeepsDistinct(out);
    out := StableSort(ByKey(), out);
    OrderedInKeyOrder(out);
  }

  lemma {:induction false} SortKeepsDistinct(s: seq<Message>)
    requires DistinctIds(s)
    ensures DistinctIds(StableSort(ByKey(), s))
  {
    if s != [] {
      SortKeepsDistinct(s[1..]);
      SortMultiset(ByKey(), s[1..]);
      var t := StableSort(ByKey(), s[1..]);
      forall i | 0 <= i < |t| ensures t[i].id != s[0].id {
        assert t[i] in s[1..];
      }
      InsertDistinct(t, s[0]);
    }
  }
}
