/** What the viewer's capped transcript loses when a message's sort key changes, as it does
    when the last inbox copy is acked (tui/model.go, tui/relay/relay.go). */
module KeyChange {
  import opened Messages
  import opened Order
  import opened SortKeys
  import opened Transcript

  /** Messages that are not before `e`. */
  function From(e: Message): Message -> bool { (x: Message) => NotAfter(e, x) }

  lemma CountSorted(s: seq<Message>, e: Message)
    ensures |Filter(From(e), StableSort(ByKey(), s))| == |Filter(From(e), s)|
  {
    ByKeyPreorder();
    SortFilterCommute(ByKey(), From(e), s);
    SortMultiset(ByKey(), Filter(From(e), s));
  }

  /** The last `n` are all not before `e`. */
  ghost predicate Ahead(e: Message, l: seq<Message>, n: nat) {
    forall x :: x in LastOf(l, n) ==> NotAfter(e, x)
  }

  /** In a sorted list the last `n` are not before `e` exactly when there are `n` such. */
  lemma CountFrom(l: seq<Message>, e: Message, n: nat)
    requires SortedBy(ByKey(), l) && n <= |l|
    ensures |Filter(From(e), l)| >= n <==> Ahead(e, l, n)
  {
    var cut := |l| - n;
    assert LastOf(l, n) == l[cut..];
    if Ahead(e, l, n) {
      assert l == l[..cut] + l[cut..];
      FilterAppend(From(e), l[..cut], l[cut..]);
      FilterAll(From(e), l[cut..]);
    } else {
      var x :| x in l[cut..] && !NotAfter(e, x);
      var k :| cut <= k < |l| && l[k] == x;
      CountBehind(l, e, k);
    }
  }

  lemma NotAfterTransitive(a: Message, b: Message, c: Message)
    ensures NotAfter(a, b) && NotAfter(b, c) ==> NotAfter(a, c)
  {
    ByKeyPreorder();
    assert ByKey()(a, b) && ByKey()(b, c) ==> ByKey()(a, c);
  }

  lemma CountBehind(l: seq<Message>, e: Message, k: nat)
    requires SortedBy(ByKey(), l) && k < |l| && !NotAfter(e, l[k])
    ensures |Filter(From(e), l)| < |l| - k
  {
    assert l == l[..k + 1] + l[k + 1..];
    forall j | 0 <= j <= k ensures !From(e)(l[j]) {
      StrLeqTotal(l[k].id, l[k].id);
      assert j < k ==> ByKey()(l[j], l[k]);
      NotAfterTransitive(e, l[j], l[k]);
    }
    FilterAppend(From(e), l[..k + 1], l[k + 1..]);
    FilterNone(From(e), l[..k + 1]);
    FilterElements(From(e), l[k + 1..]);
  }

  /** What the last `n` of a whole list leave out is not after them. */
  lemma LeftOutIsBefore(u: seq<Message>, n: nat, e: Message)
    requires SortedBy(ByKey(), u) && e in u && e !in LastOf(u, n)
    ensures Ahead(e, u, n)
  {
    var t := LastOf(u, n);
    var i :| 0 <= i < |u| && u[i] == e;
    assert t == u[|u| - n..];
    forall k | |u| - n <= k < |u| ensures u[k] in t {
      assert t[k - (|u| - n)] == u[k];
    }
    forall x | x in t ensures ByKey()(e, x) {
      var j :| 0 <= j < |t| && t[j] == x;
      assert x == u[j + (|u| - n)];
    }
  }

  /** If the last `n` of a part are ahead of all that is not in it, they are those of the whole. */
  lemma NewestOfWhole(l: seq<Message>, out: seq<Message>, u: seq<Message>, n: nat)
    requires SortedBy(ByKey(), l) && SortedBy(ByKey(), u) && NoTies(ByKey(), u) && n <= |l|
    requires multiset(u) == multiset(l) + multiset(out) && forall e :: e in out ==> Ahead(e, l, n)
    ensures LastOf(l, n) == LastOf(u, n)
  {
    var cut := |l| - n;
    var rest := l[..cut] + out;
    var v := StableSort(ByKey(), rest) + l[cut..];
    assert l == l[..cut] + l[cut..];
    ByKeyPreorder();
    SortSorted(ByKey(), rest);
    SortMultiset(ByKey(), rest);
    assert multiset(v) == multiset(u);
    forall i, j | 0 <= i < j < |v| ensures ByKey()(v[i], v[j]) {
      if i < |rest| <= j {
        assert v[i] in rest;
        assert v[j] in l[cut..];
        RestBefore(l, out, n, v[i], v[j]);
      }
    }
    SortedUnique(ByKey(), v, u);
  }

  lemma RestBefore(l: seq<Message>, out: seq<Message>, n: nat, x: Message, y: Message)
    requires SortedBy(ByKey(), l) && n <= |l| && (forall e :: e in out ==> Ahead(e, l, n))
    requires x in l[..|l| - n] + out && y in l[|l| - n..]
    ensures ByKey()(x, y)
  {
    assert LastOf(l, n) == l[|l| - n..];
    if x !in out {
      var i :| 0 <= i < |l| - n && l[i] == x;
      var j :| |l| - n <= j < |l| && l[j] == y;
    }
  }

  /** Sorting and cutting a part of a list gives the newest of the whole list exactly when,
      for each message left out, the part has `n` that are not before it. */
  lemma PartIsNewestIff(part: seq<Message>, out: seq<Message>, whole: seq<Message>, n: nat)
    requires DistinctIds(whole) && multiset(whole) == multiset(part) + multiset(out) && n <= |part|
    ensures LastOf(StableSort(ByKey(), part), n) == LastOf(StableSort(ByKey(), whole), n) <==>
      forall e :: e in out ==> |Filter(From(e), part)| >= n
  {
    ByKeyPreorder();
    var l, u := StableSort(ByKey(), part), StableSort(ByKey(), whole);
    SortSorted(ByKey(), part);
    SortMultiset(ByKey(), part);
    SortSorted(ByKey(), whole);
    SortMultiset(ByKey(), whole);
    SortKeepsDistinct(whole);
    DistinctHasNoTies(u);
    forall e ensures |Filter(From(e), part)| >= n <==> Ahead(e, l, n) {
      CountSorted(part, e);
      CountFrom(l, e, n);
    }
    if LastOf(l, n) == LastOf(u, n) {
      forall e | e in out ensures Ahead(e, l, n) {
        OutIsNotInPart(part, out, whole, e);
        assert e in multiset(u);
        assert e !in LastOf(u, n);
        LeftOutIsBefore(u, n, e);
      }
    }
    if forall e :: e in out ==> Ahead(e, l, n) {
      NewestOfWhole(l, out, u, n);
    }
  }

  lemma OutIsNotInPart(part: seq<Message>, out: seq<Message>, whole: seq<Message>, e: Message)
    requires DistinctIds(whole) && multiset(whole) == multiset(part) + multiset(out) && e in out
    ensures e !in part
  {
    DistinctCount(whole, e);
    assert multiset(out)[e] >= 1;
    assert e in part ==> multiset(part)[e] >= 1;
  }

  function Unseen(msgs: seq<Message>): Message -> bool { (x: Message) => !HasId(msgs, x.id) }

  /** What the cap evicted before and the snapshot does not bring back. */
  function Forgotten(s: seq<Message>, msgs: seq<Message>, n: nat): seq<Message> {
    if |s| <= n then [] else Filter(Unseen(msgs), s[..|s| - n])
  }

  lemma {:induction false} SeenIsLatest(msgs: seq<Message>, id: string)
    ensures HasId(msgs, id) <==> Latest(msgs, id).Some?
  {
    if msgs != [] {
      var n := |msgs| - 1;
      SeenIsLatest(msgs[..n], id);
      if HasId(msgs[..n], id) {
        var i :| 0 <= i < n && msgs[..n][i].id == id;
        assert msgs[i].id == id;
      }
      if HasId(msgs, id) && msgs[n].id != id {
        var i :| 0 <= i < |msgs| && msgs[i].id == id;
        assert msgs[..n][i].id == id;
      }
    }
  }

  /** Taking a snapshot into the whole list or into its cap differs by what is forgotten. */
  lemma TakenSplits(s: seq<Message>, msgs: seq<Message>, n: nat)
    requires DistinctIds(s) && |s| > n
    ensures DistinctIds(TakeAll(s, msgs))
    ensures multiset(TakeAll(s, msgs)) == multiset(TakeAll(LastOf(s, n), msgs)) + multiset(Forgotten(s, msgs, n))
  {
    var head, t, out := s[..|s| - n], LastOf(s, n), Forgotten(s, msgs, n);
    var part := TakeAll(t, msgs);
    assert s == head + t;
    TakeAllElements(s, msgs);
    TakeAllElements(t, msgs);
    FilterElements(Unseen(msgs), head);
    FilterDistinctIds(Unseen(msgs), head);
    forall x ensures x in part + out <==> x in TakeAll(s, msgs) {
      SeenIsLatest(msgs, x.id);
      assert x in s <==> x in head || x in t;
    }
    forall x, y | x in part && y in out ensures x.id != y.id {
      SeenIsLatest(msgs, x.id);
      LatestHasId(msgs, x.id);
      HeadApart(s, n, x, y);
    }
    DistinctIdsConcat(part, out);
    SameElementsSameMultiset(part + out, TakeAll(s, msgs));
  }

  lemma HeadApart(s: seq<Message>, n: nat, x: Message, y: Message)
    requires DistinctIds(s) && |s| > n && y in s[..|s| - n]
    ensures x in LastOf(s, n) ==> x.id != y.id
  {
    if x in LastOf(s, n) {
      var i :| 0 <= i < |s| - n && s[i] == y;
      var j :| 0 <= j < n && LastOf(s, n)[j] == x;
      assert s[|s| - n + j] == x;
    }
  }

  lemma DistinctIdsConcat(a: seq<Message>, b: seq<Message>)
    requires DistinctIds(a) && DistinctIds(b) && forall x, y :: x in a && y in b ==> x.id != y.id
    ensures DistinctIds(a + b)
  {
    forall i, j | 0 <= i < j < |a + b| ensures (a + b)[i].id != (a + b)[j].id {
      if i < |a| <= j {
        assert (a + b)[i] in a && (a + b)[j] in b;
      }
    }
  }

  lemma {:induction false} FilterDistinctIds(p: Message -> bool, s: seq<Message>)
    requires DistinctIds(s)
    ensures DistinctIds(Filter(p, s))
  {
    if s != [] {
      FilterDistinctIds(p, s[1..]);
      FilterElements(p, s[1..]);
      var rest := Filter(p, s[1..]);
      forall i | 0 <= i < |rest| ensures rest[i].id != s[0].id {
        assert rest[i] in s[1..];
      }
    }
  }

  /** In order, the list after a snapshot is the sorted cap of all it took in. */
  lemma AccumulatedSorted(t: seq<Message>, msgs: seq<Message>, n: nat)
    requires |t| <= n
    ensures StableSort(ByKey(), Accumulated(t, msgs, n)) == LastOf(StableSort(ByKey(), TakeAll(t, msgs)), n)
  {
    var all := TakeAll(t, msgs);
    ByKeyPreorder();
    SortSorted(ByKey(), all);
    SortMultiset(ByKey(), all);
    if |all| != |t| {
      SortOfSorted(ByKey(), LastOf(StableSort(ByKey(), all), n));
    }
  }

  /** A snapshot with any keys: the viewer still holds the newest part of all it has seen
      exactly when, for each message it evicted before and does not get back, it holds `n`
      that are not before it. Otherwise it lacks a newer message than one it shows. */
  lemma SnapshotKeepsNewestIff(s: seq<Message>, msgs: seq<Message>, n: nat)
    requires DistinctIds(s)
    ensures
      StableSort(ByKey(), Accumulated(LastOf(s, n), msgs, n)) == LastOf(StableSort(ByKey(), TakeAll(s, msgs)), n) <==>
      forall e :: e in Forgotten(s, msgs, n) ==> |Filter(From(e), TakeAll(LastOf(s, n), msgs))| >= n
  {
    AccumulatedSorted(LastOf(s, n), msgs, n);
    if |s| > n {
      NoneNew(LastOf(s, n), msgs);
      TakenSplits(s, msgs, n);
      PartIsNewestIff(TakeAll(LastOf(s, n), msgs), Forgotten(s, msgs, n), TakeAll(s, msgs), n);
    }
  }

  lemma LastOfSplit(s: seq<Message>, n: nat)
    requires Ordered(s) && |s| > n
    ensures forall x, y :: x in s[..|s| - n] && y in LastOf(s, n) ==> NotAfter(x, y)
  {
    forall x, y | x in s[..|s| - n] && y in LastOf(s, n) ensures NotAfter(x, y) {
      var i :| 0 <= i < |s| - n && s[i] == x;
      var j :| 0 <= j < n && LastOf(s, n)[j] == y;
      assert ByKey()(s[i], s[|s| - n + j]);
    }
  }

  lemma NewestForgotten(s: seq<Message>, n: nat, e: Message)
    requires Ordered(s) && |s| > n && e == s[|s| - n - 1]
    ensures forall x :: x in s[..|s| - n] ==> NotAfter(x, e)
  {
    forall x | x in s[..|s| - n] ensures NotAfter(x, e) {
      var i :| 0 <= i < |s| - n && s[i] == x;
      StrLeqTotal(x.id, x.id);
      assert i < |s| - n - 1 ==> ByKey()(s[i], s[|s| - n - 1]);
    }
  }

  lemma TakeOne(t: seq<Message>, m: Message)
    ensures TakeAll(t, [m]) == Taken(t, m)
  {
    assert [m][1..] == [];
  }

  /** A new id never harms, whatever is forgotten. */
  lemma NewIdKeepsCount(s: seq<Message>, m: Message, n: nat, e: Message)
    requires Ordered(s) && |s| > n && !HasId(LastOf(s, n), m.id) && e in s[..|s| - n]
    ensures |Filter(From(e), Taken(LastOf(s, n), m))| >= n
  {
    var t := LastOf(s, n);
    LastOfSplit(s, n);
    FilterAppend(From(e), t, [m]);
    FilterAll(From(e), t);
  }

  /** A shown id keeps the count exactly when its new key is not before what is forgotten. */
  lemma ShownIdKeepsCountIff(s: seq<Message>, m: Message, n: nat, e: Message)
    requires Ordered(s) && |s| > n && HasId(LastOf(s, n), m.id) && e in s[..|s| - n]
    ensures |Filter(From(e), Taken(LastOf(s, n), m))| >= n <==> NotAfter(e, m)
  {
    var t := LastOf(s, n);
    var r := Taken(t, m);
    LastOfSplit(s, n);
    LastOfOrdered(s, n);
    TakenElements(t, m);
    ReplaceAt(t, m);
    if NotAfter(e, m) {
      FilterAll(From(e), r);
    } else {
      assert m in r;
      var k :| 0 <= k < |r| && r[k] == m;
      FilterMisses(From(e), r, k);
    }
  }

  /** One message seen again, with whatever key: the viewer keeps the newest part exactly when
      nothing was evicted yet, or the message is not one it shows, or its key is not before
      that of the newest evicted message. */
  lemma KeyChangeKeepsNewestIff(s: seq<Message>, m: Message, n: nat)
    requires Ordered(s)
    ensures
      StableSort(ByKey(), Accumulated(LastOf(s, n), [m], n)) == LastOf(StableSort(ByKey(), Taken(s, m)), n) <==>
      |s| <= n || !HasId(LastOf(s, n), m.id) || NotAfter(s[|s| - n - 1], m)
  {
    var t := LastOf(s, n);
    SnapshotKeepsNewestIff(s, [m], n);
    TakeOne(s, m);
    TakeOne(t, m);
    if |s| > n {
      var e := s[|s| - n - 1];
      FilterElements(Unseen([m]), s[..|s| - n]);
      if HasId(t, m.id) {
        StaysForgotten(s, m, n);
        ShownIdKeepsCountIff(s, m, n, e);
        NewestForgotten(s, n, e);
        forall x | x in Forgotten(s, [m], n) ensures NotAfter(e, m) ==> |Filter(From(x), Taken(t, m))| >= n {
          NotAfterTransitive(x, e, m);
          ShownIdKeepsCountIff(s, m, n, x);
        }
      } else {
        forall x | x in Forgotten(s, [m], n) ensures |Filter(From(x), Taken(t, m))| >= n {
          NewIdKeepsCount(s, m, n, x);
        }
      }
    }
  }

  lemma StaysForgotten(s: seq<Message>, m: Message, n: nat)
    requires Ordered(s) && |s| > n && HasId(LastOf(s, n), m.id)
    ensures s[|s| - n - 1] in Forgotten(s, [m], n)
  {
    var e := s[|s| - n - 1];
    var j :| 0 <= j < n && LastOf(s, n)[j].id == m.id;
    assert s[|s| - n + j].id == m.id;
    assert s[..|s| - n][|s| - n - 1] == e;
    FilterElements(Unseen([m]), s[..|s| - n]);
  }

  /** The loss, for every cap: a shown message that comes back before the newest evicted one
      stays, and the evicted one, which is newer, does not return. */
  lemma KeyChangeLosesNewest(s: seq<Message>, m: Message, n: nat)
    requires Ordered(s) && n < |s| && HasId(LastOf(s, n), m.id) && !NotAfter(s[|s| - n - 1], m)
    ensures
      var after, e := Accumulated(LastOf(s, n), [m], n), s[|s| - n - 1];
      m in after && e !in after && NotAfter(m, e) && e in Taken(s, m)
  {
    var t, e := LastOf(s, n), s[|s| - n - 1];
    TakeOne(t, m);
    LastOfOrdered(s, n);
    ReplaceAt(t, m);
    TakenElements(t, m);
    TakenElements(s, m);
    HeadApart(s, n, e, s[..|s| - n][|s| - n - 1]);
    StrLeqTotal(e.id, m.id);
    var j :| 0 <= j < n && t[j].id == m.id;
    assert s[|s| - n + j].id == m.id;
  }

  /** And until a new id comes the list is not sorted again: a message seen again in place is
      in order exactly when its key still fits between its neighbours'. */
  lemma InPlaceOrderIff(t: seq<Message>, i: nat, m: Message, n: nat)
    requires Ordered(t) && i < |t| && t[i].id == m.id
    ensures
      SortedBy(ByKey(), Accumulated(t, [m], n)) <==>
      (i == 0 || NotAfter(t[i - 1], m)) && (i == |t| - 1 || NotAfter(m, t[i + 1]))
  {
    TakeOne(t, m);
    ReplaceIsUpdate(t, i, m);
    var r := t[i := m];
    ByKeyPreorder();
    if (i == 0 || NotAfter(t[i - 1], m)) && (i == |t| - 1 || NotAfter(m, t[i + 1])) {
      forall j, k | 0 <= j < k < |t| ensures ByKey()(r[j], r[k]) {
        if k == i {
          assert j < i - 1 ==> ByKey()(t[j], t[i - 1]);
          NotAfterTransitive(t[j], t[i - 1], m);
        } else if j == i {
          assert i + 1 < k ==> ByKey()(t[i + 1], t[k]);
          NotAfterTransitive(m, t[i + 1], t[k]);
        } else {
          assert ByKey()(t[j], t[k]);
        }
      }
    }
    assert SortedBy(ByKey(), r) && i > 0 ==> ByKey()(r[i - 1], r[i]);
    assert SortedBy(ByKey(), r) && i + 1 < |t| ==> ByKey()(r[i], r[i + 1]);
  }

  /** A message's key after its last inbox copy is gone: sent in millisecond `sent` and written
      to that file in millisecond `written`, it keeps its key exactly when both happened in the
      first millisecond of one second, and falls otherwise. */
  lemma KeyAfterAckIff(inbox: seq<Message>, left: seq<Message>, git: seq<Message>, id: string,
                       sent: nat, written: nat, sender: string, suffix: string)
    requires sent <= written < INT64_LIMIT
    requires Latest(inbox, id).Some? && Latest(left, id).None? && First(git, id).Some?
    requires Latest(inbox, id).value.sortMs == FilenameMs(FileName(written, sender, suffix), Some(sent / 1000))
    requires First(git, id).value.sortMs == IsoToMs(Some(sent / 1000))
    ensures Winner(inbox, git, id).Some? && Winner(left, git, id).Some?
    ensures
      var before, after := Winner(inbox, git, id).value.sortMs, Winner(left, git, id).value.sortMs;
      && (after == before <==> written == sent && sent % 1000 == 0)
      && (after != before ==> after < before)
  {
    KeysAgreeIff(sent, written, sender, suffix);
  }
}
