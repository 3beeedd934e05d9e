/** Delivery receipts as a capped delta: which receipts a peek lists, and what the session
    remembers having listed (server.py). */
module Receipts {
  import opened Messages
  import opened Order

  const RECEIPTS_SHOWN: nat := 10

  datatype Key = Key(id: string, to: string)

  datatype Receipt = Receipt(id: string, to: string, state: State, sentAt: string)

  /** `_REPORTED_RECEIPTS`. */
  type Reported = map<Key, State>

  function KeyOf(r: Receipt): Key { Key(r.id, r.to) }

  function KeysOf(rs: seq<Receipt>): set<Key> { set r | r in rs :: KeyOf(r) }

  ghost predicate DistinctKeys(rs: seq<Receipt>) {
    forall i, j :: 0 <= i < j < |rs| ==> KeyOf(rs[i]) != KeyOf(rs[j])
  }

  /** Receipts under one key are in one state. */
  ghost predicate Consistent(rs: seq<Receipt>) {
    forall r, r' :: r in rs && r' in rs && KeyOf(r) == KeyOf(r') ==> r.state == r'.state
  }

  lemma DistinctIsConsistent(rs: seq<Receipt>)
    requires DistinctKeys(rs)
    ensures Consistent(rs)
  {
    forall r, r' | r in rs && r' in rs && KeyOf(r) == KeyOf(r') ensures r == r' {
      var i :| 0 <= i < |rs| && rs[i] == r;
      var j :| 0 <= j < |rs| && rs[j] == r';
      assert i == j;
    }
  }

  function Changed(reported: Reported): Receipt -> bool {
    (r: Receipt) => !(KeyOf(r) in reported && reported[KeyOf(r)] == r.state)
  }

  function Newer(): (Receipt, Receipt) -> bool { (a: Receipt, b: Receipt) => StrLeq(b.sentAt, a.sentAt) }

  /** What has changed since it was last listed, newest first. */
  function Fresh(reported: Reported, rs: seq<Receipt>): seq<Receipt> {
    StableSort(Newer(), Filter(Changed(reported), rs))
  }

  function Cut(s: seq<Receipt>, limit: Option<nat>): (r: seq<Receipt>)
    ensures r <= s
  {
    if limit.None? || |s| <= limit.value then s else s[..limit.value]
  }

  function Shown(reported: Reported, rs: seq<Receipt>, limit: Option<nat>): seq<Receipt> {
    Cut(Fresh(reported, rs), limit)
  }

  function Held(reported: Reported, rs: seq<Receipt>, limit: Option<nat>): seq<Receipt> {
    Fresh(reported, rs)[|Shown(reported, rs, limit)|..]
  }

  /** The states of all receipts but the held ones, a later entry overriding an earlier. */
  function SeenFrom(seen: Reported, rs: seq<Receipt>, held: set<Key>): Reported
    decreases |rs|
  {
    if rs == [] then seen
    else SeenFrom(if KeyOf(rs[0]) in held then seen else seen[KeyOf(rs[0]) := rs[0].state], rs[1..], held)
  }

  function Carried(reported: Reported, held: set<Key>): Reported {
    map k | k in held && k in reported :: reported[k]
  }

  /** What is remembered after a peek. */
  function NextReported(reported: Reported, rs: seq<Receipt>, limit: Option<nat>): Reported {
    var held := KeysOf(Held(reported, rs, limit));
    SeenFrom(map[], rs, held) + Carried(reported, held)
  }

  class Session {
    var reported: Reported

    /** `_new_receipts`. */
    method NewReceipts(rs: seq<Receipt>, limit: Option<nat>) returns (shown: seq<Receipt>, older: nat)
      modifies this
      ensures shown == Shown(old(reported), rs, limit)
      ensures older == |Held(old(reported), rs, limit)|
      ensures reported == NextReported(old(reported), rs, limit)
    {
      var changed := Select(rs);
      changed := StableSort(Newer(), changed);
      shown := if limit.None? || |changed| <= limit.value then changed else changed[..limit.value];
      var held := set r | r in changed[|shown|..] :: KeyOf(r);
      older := |changed| - |shown|;
      var seen: Reported := map[];
      assert rs[0..] == rs;
      var i := 0;
      while i < |rs|
        invariant 0 <= i <= |rs|
        invariant SeenFrom(seen, rs[i..], held) == SeenFrom(map[], rs, held)
      {
        assert rs[i..][1..] == rs[i + 1..];
        if KeyOf(rs[i]) !in held {
          seen := seen[KeyOf(rs[i]) := rs[i].state];
        }
        i := i + 1;
      }
      reported := seen + map k | k in held && k in reported :: reported[k];
    }

    method Select(rs: seq<Receipt>) returns (changed: seq<Receipt>)
      ensures changed == Filter(Changed(reported), rs)
    {
      changed := [];
      assert rs[0..] == rs;
      var i := 0;
      while i < |rs|
        invariant 0 <= i <= |rs|
        invariant changed + Filter(Changed(reported), rs[i..]) == Filter(Changed(reported), rs)
      {
        assert rs[i..][1..] == rs[i + 1..];
        if !(KeyOf(rs[i]) in reported && reported[KeyOf(rs[i])] == rs[i].state) {
          changed := changed + [rs[i]];
        }
        i := i + 1;
      }
    }

    /** `_receipt_fields`: the counts a peek reports beside the list. */
    method ReceiptFields(every: seq<Receipt>, allReceipts: bool) returns (listed: seq<Receipt>, same: nat, older: nat)
      modifies this
      ensures reported == NextReported(old(reported), every, if allReceipts then None else Some(RECEIPTS_SHOWN))
      ensures allReceipts ==> listed == every && same == 0 && older == 0
      ensures !allReceipts ==>
        && listed == Shown(old(reported), every, Some(RECEIPTS_SHOWN))
        && |listed| == (if |every| - same <= 10 then |every| - same else 10)
        && |listed| + older + same == |every|
        && same == |every| - |Filter(Changed(old(reported)), every)|
    {
      FilterElements(Changed(reported), every);
      SortMultiset(Newer(), Filter(Changed(reported), every));
      if allReceipts {
        var shown, held := NewReceipts(every, None);
        return every, 0, 0;
      }
      listed, older := NewReceipts(every, Some(RECEIPTS_SHOWN));
      same := |every| - |listed| - older;
    }
  }

  // ----- keys stay distinct under selecting and sorting -----

  lemma NewerPreorder()
    ensures TotalPreorder(Newer())
  {
    StrLeqPreorder();
    forall a: Receipt, b: Receipt ensures Newer()(a, b) || Newer()(b, a) {
      StrLeqTotal(a.sentAt, b.sentAt);
    }
    forall a: Receipt, b: Receipt, c: Receipt | Newer()(a, b) && Newer()(b, c) ensures Newer()(a, c) {
      StrLeqTransitive(c.sentAt, b.sentAt, a.sentAt);
    }
  }

  lemma KeysOfCons(x: Receipt, s: seq<Receipt>)
    ensures KeysOf([x] + s) == {KeyOf(x)} + KeysOf(s)
    ensures DistinctKeys([x] + s) <==> DistinctKeys(s) && KeyOf(x) !in KeysOf(s)
  {
    var t := [x] + s;
    if DistinctKeys(t) {
      forall i | 0 <= i < |s| ensures KeyOf(s[i]) != KeyOf(t[0]) {
        assert t[i + 1] == s[i];
      }
      assert DistinctKeys(s) by { assert s == t[1..]; }
    }
    if KeyOf(x) !in KeysOf(s) {
      forall i | 0 <= i < |s| ensures KeyOf(s[i]) != KeyOf(x) {
        assert KeyOf(s[i]) in KeysOf(s);
      }
    }
  }

  lemma {:induction false} InsertKeys(x: Receipt, s: seq<Receipt>)
    requires DistinctKeys(s) && KeyOf(x) !in KeysOf(s)
    ensures DistinctKeys(Insert(Newer(), x, s))
    ensures KeysOf(Insert(Newer(), x, s)) == KeysOf(s) + {KeyOf(x)}
  {
    KeysOfCons(x, s);
    if s == [] || Newer()(x, s[0]) {
    } else {
      assert s == [s[0]] + s[1..];
      KeysOfCons(s[0], s[1..]);
      InsertKeys(x, s[1..]);
      KeysOfCons(s[0], Insert(Newer(), x, s[1..]));
    }
  }

  lemma {:induction false} SortKeys(s: seq<Receipt>)
    requires DistinctKeys(s)
    ensures DistinctKeys(StableSort(Newer(), s)) && KeysOf(StableSort(Newer(), s)) == KeysOf(s)
  {
    if s != [] {
      assert s == [s[0]] + s[1..];
      SortKeys(s[1..]);
      InsertKeys(s[0], StableSort(Newer(), s[1..]));
    }
  }

  lemma {:induction false} FilterKeys(p: Receipt -> bool, s: seq<Receipt>)
    requires DistinctKeys(s)
    ensures DistinctKeys(Filter(p, s))
  {
    if s != [] {
      FilterKeys(p, s[1..]);
      FilterElements(p, s[1..]);
      var rest := Filter(p, s[1..]);
      forall i | 0 <= i < |rest| ensures KeyOf(rest[i]) != KeyOf(s[0]) {
        assert rest[i] in s[1..];
      }
    }
  }

  lemma FreshElements(reported: Reported, rs: seq<Receipt>)
    ensures forall r :: r in Fresh(reported, rs) <==> r in rs && Changed(reported)(r)
  {
    FilterElements(Changed(reported), rs);
    SortMultiset(Newer(), Filter(Changed(reported), rs));
  }

  lemma FreshDistinct(reported: Reported, rs: seq<Receipt>)
    requires DistinctKeys(rs)
    ensures DistinctKeys(Fresh(reported, rs))
  {
    FilterKeys(Changed(reported), rs);
    SortKeys(Filter(Changed(reported), rs));
  }

  /** The changed receipts are exactly the shown and the held ones, and no two of them
      share a key. */
  lemma FreshSplit(reported: Reported, rs: seq<Receipt>, limit: Option<nat>)
    requires DistinctKeys(rs)
    ensures
      var shown, held := Shown(reported, rs, limit), Held(reported, rs, limit);
      && Fresh(reported, rs) == shown + held && DistinctKeys(shown + held)
      && forall r :: (r in shown || r in held) <==> r in rs && Changed(reported)(r)
  {
    FreshElements(reported, rs);
    FreshDistinct(reported, rs);
    var all, shown, held := Fresh(reported, rs), Shown(reported, rs, limit), Held(reported, rs, limit);
    assert all == shown + held;
    forall r ensures (r in shown || r in held) <==> r in all {
    }
  }

  lemma {:induction false} SeenValue(seen: Reported, rs: seq<Receipt>, held: set<Key>)
    requires Consistent(rs)
    ensures forall k :: k in SeenFrom(seen, rs, held) ==> k in seen || k in KeysOf(rs)
    ensures forall k :: k in seen && k !in KeysOf(rs) ==>
      k in SeenFrom(seen, rs, held) && SeenFrom(seen, rs, held)[k] == seen[k]
    ensures forall r :: r in rs && KeyOf(r) !in held ==>
      KeyOf(r) in SeenFrom(seen, rs, held) && SeenFrom(seen, rs, held)[KeyOf(r)] == r.state
    ensures forall k :: k in held && k !in seen ==> k !in SeenFrom(seen, rs, held)
    decreases |rs|
  {
    if rs != [] {
      var next := if KeyOf(rs[0]) in held then seen else seen[KeyOf(rs[0]) := rs[0].state];
      assert rs == [rs[0]] + rs[1..];
      SeenValue(next, rs[1..], held);
      if KeyOf(rs[0]) in KeysOf(rs[1..]) && KeyOf(rs[0]) !in held {
        var r :| r in rs[1..] && KeyOf(r) == KeyOf(rs[0]);
        assert r in rs && rs[0] in rs;
      }
    }
  }

  /** What one peek does to the memory of one receipt: a held one keeps its old entry, any
      other has its current state recorded, and an absent one is forgotten. */
  lemma NextReportedAt(reported: Reported, rs: seq<Receipt>, limit: Option<nat>)
    requires DistinctKeys(rs)
    ensures forall k :: k in NextReported(reported, rs, limit) ==> k in KeysOf(rs)
    ensures forall r :: r in rs ==> (
      var next, k := NextReported(reported, rs, limit), KeyOf(r);
      if r in Held(reported, rs, limit) then (k in next <==> k in reported) && (k in next ==> next[k] == reported[k])
      else k in next && next[k] == r.state)
  {
    var held := Held(reported, rs, limit);
    FreshSplit(reported, rs, limit);
    DistinctIsConsistent(rs);
    SeenValue(map[], rs, KeysOf(held));
    forall r | r in rs ensures KeyOf(r) in KeysOf(held) <==> r in held {
      if KeyOf(r) in KeysOf(held) {
        var h :| h in held && KeyOf(h) == KeyOf(r);
        assert h in rs;
        assert h == r;
      }
    }
  }

  // ----- any run of peeks -----

  /** One peek: the receipts there were, and the cap it used. */
  datatype PeekOf = PeekOf(receipts: seq<Receipt>, limit: Option<nat>)

  function ReportedAfter(run: seq<PeekOf>): Reported {
    if run == [] then map[]
    else
      var n := |run| - 1;
      NextReported(ReportedAfter(run[..n]), run[n].receipts, run[n].limit)
  }

  function ShownLast(run: seq<PeekOf>): seq<Receipt>
    requires run != []
  {
    var n := |run| - 1;
    Shown(ReportedAfter(run[..n]), run[n].receipts, run[n].limit)
  }

  /** Read off the history of peeks: the state `r`'s key was last listed with, over the
      time it has been continuously present. */
  function LastListed(run: seq<PeekOf>, k: Key): Option<State> {
    if run == [] || k !in KeysOf(run[|run| - 1].receipts) then None
    else if k in KeysOf(ShownLast(run)) then StateIn(ShownLast(run), k)
    else LastListed(run[..|run| - 1], k)
  }

  function StateIn(rs: seq<Receipt>, k: Key): Option<State> {
    if rs == [] then None else if KeyOf(rs[0]) == k then Some(rs[0].state) else StateIn(rs[1..], k)
  }

  lemma {:induction false} StateInFinds(rs: seq<Receipt>, r: Receipt)
    requires DistinctKeys(rs) && r in rs
    ensures StateIn(rs, KeyOf(r)) == Some(r.state)
  {
    if rs[0] != r {
      var i :| 0 <= i < |rs| && rs[i] == r;
      assert KeyOf(rs[0]) != KeyOf(rs[i]);
      StateInFinds(rs[1..], r);
    }
  }

  ghost predicate AllDistinct(run: seq<PeekOf>) { forall i :: 0 <= i < |run| ==> DistinctKeys(run[i].receipts) }

  /** The session's memory is exactly, for each receipt continuously present, the state it
      was last listed with. */
  lemma {:induction false} ReportedIsLastListed(run: seq<PeekOf>, k: Key)
    requires AllDistinct(run)
    ensures k in ReportedAfter(run) <==> LastListed(run, k).Some?
    ensures k in ReportedAfter(run) ==> LastListed(run, k) == Some(ReportedAfter(run)[k])
  {
    if run != [] {
      var n := |run| - 1;
      var before, rs, limit := ReportedAfter(run[..n]), run[n].receipts, run[n].limit;
      ReportedIsLastListed(run[..n], k);
      NextReportedAt(before, rs, limit);
      FreshSplit(before, rs, limit);
      if k in KeysOf(rs) {
        var r :| r in rs && KeyOf(r) == k;
        ListedOrNot(before, rs, limit, r);
        if r in ShownLast(run) {
          StateInFinds(ShownLast(run), r);
        }
      }
    }
  }

  lemma Apart(a: seq<Receipt>, b: seq<Receipt>, r: Receipt)
    requires DistinctKeys(a + b) && r in a
    ensures r !in b
  {
    var i :| 0 <= i < |a| && a[i] == r;
    forall j | 0 <= j < |b| ensures b[j] != r {
      assert (a + b)[i] == r && (a + b)[|a| + j] == b[j];
    }
  }

  lemma ListedOrNot(reported: Reported, rs: seq<Receipt>, limit: Option<nat>, r: Receipt)
    requires DistinctKeys(rs) && r in rs
    ensures DistinctKeys(Shown(reported, rs, limit))
    ensures r in Shown(reported, rs, limit) ==> r !in Held(reported, rs, limit)
    ensures r in Shown(reported, rs, limit) <==> KeyOf(r) in KeysOf(Shown(reported, rs, limit))
    ensures r !in Shown(reported, rs, limit) && r !in Held(reported, rs, limit) ==>
      KeyOf(r) in reported && reported[KeyOf(r)] == r.state
  {
    var shown, held := Shown(reported, rs, limit), Held(reported, rs, limit);
    FreshSplit(reported, rs, limit);
    assert shown == (shown + held)[..|shown|];
    if r in shown {
      Apart(shown, held, r);
    }
    if KeyOf(r) in KeysOf(shown) {
      var h :| h in shown && KeyOf(h) == KeyOf(r);
      assert h in rs;
      assert h == r;
    }
  }

  // ----- convergence -----

  /** Everything listed by `n` peeks at unchanging receipts. */
  function Listed(reported: Reported, rs: seq<Receipt>, limit: nat, n: nat): seq<Receipt>
    decreases n
  {
    if n == 0 then []
    else Shown(reported, rs, Some(limit)) + Listed(NextReported(reported, rs, Some(limit)), rs, limit, n - 1)
  }

  function Under(keys: set<Key>): Receipt -> bool { (r: Receipt) => KeyOf(r) in keys }

  lemma {:induction false} FilterTwice(p: Receipt -> bool, q: Receipt -> bool, both: Receipt -> bool, s: seq<Receipt>)
    requires forall r :: r in s ==> both(r) == (p(r) && q(r))
    ensures Filter(q, Filter(p, s)) == Filter(both, s)
  {
    if s != [] {
      FilterTwice(p, q, both, s[1..]);
    }
  }

  /** After a peek a receipt is fresh if it was and its key is one of those held back. */
  lemma ChangedNext(reported: Reported, rs: seq<Receipt>, limit: Option<nat>, r: Receipt)
    requires Consistent(rs) && r in rs
    ensures Changed(NextReported(reported, rs, limit))(r) <==>
      Changed(reported)(r) && KeyOf(r) in KeysOf(Held(reported, rs, limit))
  {
    SeenValue(map[], rs, KeysOf(Held(reported, rs, limit)));
  }

  /** While receipts stay as they are, fresh next time is what was fresh now under a held key. */
  lemma FreshNext(reported: Reported, rs: seq<Receipt>, limit: Option<nat>)
    requires Consistent(rs)
    ensures Fresh(NextReported(reported, rs, limit), rs) ==
      Filter(Under(KeysOf(Held(reported, rs, limit))), Fresh(reported, rs))
  {
    var p, next := Changed(reported), NextReported(reported, rs, limit);
    var q := Under(KeysOf(Held(reported, rs, limit)));
    forall r | r in rs ensures Changed(next)(r) == (p(r) && q(r)) {
      ChangedNext(reported, rs, limit, r);
    }
    FilterTwice(p, q, Changed(next), rs);
    NewerPreorder();
    SortFilterCommute(Newer(), q, Filter(p, rs));
  }

  /** No key is on both sides of the place. */
  ghost predicate CleanAt(s: seq<Receipt>, c: nat) { c >= |s| || KeysOf(s[..c]) !! KeysOf(s[c..]) }

  lemma FilterUnder(a: seq<Receipt>, b: seq<Receipt>)
    ensures Filter(Under(KeysOf(b)), a + b) == Filter(Under(KeysOf(b)), a) + b
    ensures Filter(Under(KeysOf(b)), a) == [] <==> KeysOf(a) !! KeysOf(b)
  {
    var q := Under(KeysOf(b));
    FilterAppend(q, a, b);
    FilterAll(q, b);
    FilterElements(q, a);
    if Filter(q, a) != [] {
      var r := Filter(q, a)[0];
      assert r in Filter(q, a);
      assert KeyOf(r) in KeysOf(a) && KeyOf(r) in KeysOf(b);
    } else {
      forall r | r in a ensures KeyOf(r) !in KeysOf(b) {
        assert !q(r);
      }
    }
  }

  /** What is fresh next time is exactly what was held back now if and only if no shown
      receipt shares its key with a held one. */
  lemma HeldIsFreshIff(reported: Reported, rs: seq<Receipt>, limit: Option<nat>)
    requires Consistent(rs)
    ensures Fresh(NextReported(reported, rs, limit), rs) == Held(reported, rs, limit) <==>
      KeysOf(Shown(reported, rs, limit)) !! KeysOf(Held(reported, rs, limit))
  {
    var shown, held := Shown(reported, rs, limit), Held(reported, rs, limit);
    FreshNext(reported, rs, limit);
    assert Fresh(reported, rs) == shown + held;
    FilterUnder(shown, held);
    var again := Filter(Under(KeysOf(held)), shown);
    if again + held == held {
      assert |again| == 0;
    }
  }

  /** A peek makes no headway, with all of it fresh again, exactly when every receipt it shows
      shares its key with one it holds back. */
  lemma NoHeadwayIff(reported: Reported, rs: seq<Receipt>, limit: Option<nat>)
    requires Consistent(rs)
    ensures Fresh(NextReported(reported, rs, limit), rs) == Fresh(reported, rs) <==>
      KeysOf(Shown(reported, rs, limit)) <= KeysOf(Held(reported, rs, limit))
  {
    var shown, held := Shown(reported, rs, limit), Held(reported, rs, limit);
    var q := Under(KeysOf(held));
    FreshNext(reported, rs, limit);
    assert Fresh(reported, rs) == shown + held;
    FilterUnder(shown, held);
    FilterElements(q, shown);
    if KeysOf(shown) <= KeysOf(held) {
      forall r | r in shown ensures q(r) {
        assert KeyOf(r) in KeysOf(shown);
      }
      FilterAll(q, shown);
    } else {
      var k :| k in KeysOf(shown) && k !in KeysOf(held);
      var r :| r in shown && KeyOf(r) == k;
      var i :| 0 <= i < |shown| && shown[i] == r;
      FilterMisses(q, shown, i);
    }
  }

  function FirstOf(s: seq<Receipt>, m: nat): seq<Receipt> { if m >= |s| then s else s[..m] }

  lemma FirstOfSum(s: seq<Receipt>, a: nat, b: nat)
    ensures FirstOf(s, a) + FirstOf(s[|FirstOf(s, a)|..], b) == FirstOf(s, a + b)
  {
  }

  /** The room in `n` peeks: n times the cap. */
  function Room(n: nat, limit: nat): nat { if n == 0 then 0 else limit + Room(n - 1, limit) }

  /** The cap of every one of `n` peeks falls between receipts of different keys. */
  ghost predicate CleanCuts(s: seq<Receipt>, limit: nat, n: nat) {
    forall i :: 0 <= i <= n ==> CleanAt(s, Room(i, limit))
  }

  lemma CleanRest(s: seq<Receipt>, limit: nat, n: nat)
    requires n > 0 && CleanCuts(s, limit, n) && limit < |s|
    ensures CleanCuts(s[limit..], limit, n - 1)
  {
    forall i | 0 <= i <= n - 1 ensures CleanAt(s[limit..], Room(i, limit)) {
      var c := Room(i, limit);
      assert CleanAt(s, Room(i + 1, limit));
      if limit + c < |s| {
        assert s[..limit + c] == s[..limit] + s[limit..][..c];
        assert s[limit..][c..] == s[limit + c..];
        forall k | k in KeysOf(s[limit..][..c]) ensures k in KeysOf(s[..limit + c]) {
          var r :| r in s[limit..][..c] && KeyOf(r) == k;
          assert r in s[..limit + c];
        }
      }
    }
  }

  /** After one peek the cuts of the others are still clean. */
  lemma FirstPeek(reported: Reported, rs: seq<Receipt>, limit: nat, n: nat)
    requires n > 0 && Consistent(rs) && CleanCuts(Fresh(reported, rs), limit, n)
    ensures
      var s, later := Fresh(reported, rs), Fresh(NextReported(reported, rs, Some(limit)), rs);
      later == s[|FirstOf(s, limit)|..] && CleanCuts(later, limit, n - 1)
  {
    var s := Fresh(reported, rs);
    assert CleanAt(s, Room(1, limit)) && Room(1, limit) == limit + Room(0, limit) == limit;
    HeldIsFreshIff(reported, rs, Some(limit));
    if limit < |s| {
      CleanRest(s, limit, n);
    }
  }

  /** Once receipts stop changing, n peeks list exactly as many of the fresh ones
      as fit, newest first. */
  lemma {:induction false} DeltasCatchUp(reported: Reported, rs: seq<Receipt>, limit: nat, n: nat)
    requires Consistent(rs) && CleanCuts(Fresh(reported, rs), limit, n)
    ensures Listed(reported, rs, limit, n) == FirstOf(Fresh(reported, rs), Room(n, limit))
    decreases n
  {
    if n > 0 {
      FirstPeek(reported, rs, limit, n);
      DeltasCatchUp(NextReported(reported, rs, Some(limit)), rs, limit, n - 1);
      FirstOfSum(Fresh(reported, rs), limit, Room(n - 1, limit));
    }
  }

  /** So ⌈fresh/limit⌉ peeks list every fresh receipt, each exactly once, newest first. */
  lemma EachListedOnce(reported: Reported, rs: seq<Receipt>, limit: nat, n: nat)
    requires Consistent(rs) && CleanCuts(Fresh(reported, rs), limit, n) && Room(n, limit) >= |Fresh(reported, rs)|
    ensures multiset(Listed(reported, rs, limit, n)) == multiset(Filter(Changed(reported), rs))
    ensures SortedBy(Newer(), Listed(reported, rs, limit, n))
  {
    NewerPreorder();
    SortSorted(Newer(), Filter(Changed(reported), rs));
    DeltasCatchUp(reported, rs, limit, n);
    SortMultiset(Newer(), Filter(Changed(reported), rs));
  }

  /** With distinct keys every cut is clean, so the two theorems above hold for every cap. */
  lemma DistinctIsClean(reported: Reported, rs: seq<Receipt>, limit: nat, n: nat)
    requires DistinctKeys(rs)
    ensures Consistent(rs) && CleanCuts(Fresh(reported, rs), limit, n)
  {
    var s := Fresh(reported, rs);
    DistinctIsConsistent(rs);
    FreshDistinct(reported, rs);
    forall c: nat | c < |s| ensures CleanAt(s, c) {
      forall k | k in KeysOf(s[..c]) ensures k !in KeysOf(s[c..]) {
        var r :| r in s[..c] && KeyOf(r) == k;
        var i :| 0 <= i < c && s[i] == r;
        forall j | c <= j < |s| ensures KeyOf(s[j]) != k {
        }
      }
    }
  }

  /** Listing everything settles the receipts exactly when no key is in two states; otherwise
      some receipt is reported as changed whatever is remembered. */
  lemma SettlesIff(reported: Reported, rs: seq<Receipt>)
    ensures Fresh(NextReported(reported, rs, None), rs) == [] <==> Consistent(rs)
    ensures !Consistent(rs) ==> Fresh(reported, rs) != []
  {
    var next := NextReported(reported, rs, None);
    if Consistent(rs) {
      FreshNext(reported, rs, None);
      FilterNone(Under({}), Fresh(reported, rs));
      assert KeysOf(Held(reported, rs, None)) == {};
    } else {
      var r, r' :| r in rs && r' in rs && KeyOf(r) == KeyOf(r') && r.state != r'.state;
      StaysFresh(next, rs, r, r');
      StaysFresh(reported, rs, r, r');
    }
  }

  lemma StaysFresh(reported: Reported, rs: seq<Receipt>, r: Receipt, r': Receipt)
    requires r in rs && r' in rs && KeyOf(r) == KeyOf(r') && r.state != r'.state
    ensures Fresh(reported, rs) != []
  {
    FreshElements(reported, rs);
    assert Changed(reported)(r) || Changed(reported)(r');
    assert r in Fresh(reported, rs) || r' in Fresh(reported, rs);
  }
}
