/** Stable sorting and filtering of sequences, and the order on strings.
    Python's `list.sort` and Go's `sort.SliceStable` belong to their libraries, so
    the model takes a stable sort as a function; what callers rely on is proved here. */
module Order {

  function Min(a: real, b: real): real { if a < b then a else b }

  ghost predicate TotalPreorder<T(!new)>(leq: (T, T) -> bool) {
    && (forall x, y :: leq(x, y) || leq(y, x))
    && (forall x, y, z :: leq(x, y) && leq(y, z) ==> leq(x, z))
  }

  ghost predicate SortedBy<T>(leq: (T, T) -> bool, s: seq<T>) {
    forall i, j :: 0 <= i < j < |s| ==> leq(s[i], s[j])
  }

  ghost predicate Distinct<T>(s: seq<T>) { forall i, j :: 0 <= i < j < |s| ==> s[i] != s[j] }

  function Insert<T>(leq: (T, T) -> bool, x: T, s: seq<T>): seq<T> {
    if s == [] || leq(x, s[0]) then [x] + s else [s[0]] + Insert(leq, x, s[1..])
  }

  function StableSort<T>(leq: (T, T) -> bool, s: seq<T>): seq<T> {
    if s == [] then [] else Insert(leq, s[0], StableSort(leq, s[1..]))
  }

  function Filter<T>(p: T -> bool, s: seq<T>): seq<T> {
    if s == [] then [] else if p(s[0]) then [s[0]] + Filter(p, s[1..]) else Filter(p, s[1..])
  }

  lemma {:induction false} InsertMultiset<T>(leq: (T, T) -> bool, x: T, s: seq<T>)
    ensures multiset(Insert(leq, x, s)) == multiset{x} + multiset(s)
  {
    if s == [] || leq(x, s[0]) {
    } else {
      InsertMultiset(leq, x, s[1..]);
      assert s == [s[0]] + s[1..];
    }
  }

  lemma {:induction false} InsertSorted<T(!new)>(leq: (T, T) -> bool, x: T, s: seq<T>)
    requires TotalPreorder(leq) && SortedBy(leq, s)
    ensures SortedBy(leq, Insert(leq, x, s))
  {
    if s == [] {
    } else if leq(x, s[0]) {
    } else {
      var rest := Insert(leq, x, s[1..]);
      InsertSorted(leq, x, s[1..]);
      InsertMultiset(leq, x, s[1..]);
      forall k | 0 <= k < |rest| ensures leq(s[0], rest[k]) {
        assert rest[k] in multiset(rest);
        assert rest[k] == x || rest[k] in s[1..];
      }
    }
  }

  /** The sorted list holds the same elements. */
  lemma {:induction false} SortMultiset<T>(leq: (T, T) -> bool, s: seq<T>)
    ensures multiset(StableSort(leq, s)) == multiset(s)
    ensures |StableSort(leq, s)| == |s|
    ensures forall x :: x in StableSort(leq, s) <==> x in s
  {
    if s == [] {
    } else {
      SortMultiset(leq, s[1..]);
      InsertMultiset(leq, s[0], StableSort(leq, s[1..]));
      assert s == [s[0]] + s[1..];
      assert multiset(StableSort(leq, s)) == multiset(s);
    }
    assert |multiset(StableSort(leq, s))| == |multiset(s)|;
    forall x ensures x in StableSort(leq, s) <==> x in s {
      assert x in StableSort(leq, s) <==> x in multiset(StableSort(leq, s));
    }
  }

  lemma {:induction false} SortSorted<T(!new)>(leq: (T, T) -> bool, s: seq<T>)
    requires TotalPreorder(leq)
    ensures SortedBy(leq, StableSort(leq, s))
  {
    if s == [] {
    } else {
      SortSorted(leq, s[1..]);
      InsertSorted(leq, s[0], StableSort(leq, s[1..]));
    }
  }

  lemma {:induction false} FilterElements<T>(p: T -> bool, s: seq<T>)
    ensures forall x :: x in Filter(p, s) ==> x in s && p(x)
    ensures forall x :: x in s && p(x) ==> x in Filter(p, s)
    ensures |Filter(p, s)| <= |s|
  {
    if s == [] {
    } else {
      FilterElements(p, s[1..]);
      assert s == [s[0]] + s[1..];
    }
  }

  lemma {:induction false} FilterAppend<T>(p: T -> bool, s: seq<T>, t: seq<T>)
    ensures Filter(p, s + t) == Filter(p, s) + Filter(p, t)
  {
    if s == [] {
      assert s + t == t;
    } else {
      FilterAppend(p, s[1..], t);
      assert (s + t)[1..] == s[1..] + t;
    }
  }

  lemma {:induction false} FilterAll<T>(p: T -> bool, s: seq<T>)
    requires forall x :: x in s ==> p(x)
    ensures Filter(p, s) == s
  {
    if s == [] {
    } else {
      FilterAll(p, s[1..]);
    }
  }

  lemma {:induction false} FilterNone<T>(p: T -> bool, s: seq<T>)
    requires forall x :: x in s ==> !p(x)
    ensures Filter(p, s) == []
  {
    if s == [] {
    } else {
      FilterNone(p, s[1..]);
    }
  }

  lemma FilterMisses<T>(p: T -> bool, s: seq<T>, k: nat)
    requires k < |s| && !p(s[k])
    ensures |Filter(p, s)| < |s|
  {
    assert s == s[..k] + ([s[k]] + s[k + 1..]);
    FilterAppend(p, s[..k], [s[k]] + s[k + 1..]);
    assert ([s[k]] + s[k + 1..])[1..] == s[k + 1..];
    FilterElements(p, s[..k]);
    FilterElements(p, s[k + 1..]);
  }

  lemma {:induction false} FilterInsert<T(!new)>(leq: (T, T) -> bool, p: T -> bool, x: T, t: seq<T>)
    requires TotalPreorder(leq) && SortedBy(leq, t)
    ensures Filter(p, Insert(leq, x, t)) == if p(x) then Insert(leq, x, Filter(p, t)) else Filter(p, t)
  {
    if t == [] {
    } else if leq(x, t[0]) {
      assert ([x] + t)[1..] == t;
      FilterElements(p, t);
      if p(x) && Filter(p, t) != [] {
        assert Filter(p, t)[0] in t;
      }
    } else {
      FilterInsert(leq, p, x, t[1..]);
      assert ([t[0]] + Insert(leq, x, t[1..]))[1..] == Insert(leq, x, t[1..]);
      if p(t[0]) {
        assert Filter(p, t)[1..] == Filter(p, t[1..]);
      }
    }
  }

  /** Stability: selecting a kind of element commutes with sorting. */
  lemma {:induction false} SortFilterCommute<T(!new)>(leq: (T, T) -> bool, p: T -> bool, s: seq<T>)
    requires TotalPreorder(leq)
    ensures Filter(p, StableSort(leq, s)) == StableSort(leq, Filter(p, s))
  {
    if s == [] {
    } else {
      SortFilterCommute(leq, p, s[1..]);
      SortSorted(leq, s[1..]);
      FilterInsert(leq, p, s[0], StableSort(leq, s[1..]));
      if p(s[0]) {
        assert Filter(p, s)[1..] == Filter(p, s[1..]);
      }
    }
  }

  lemma {:induction false} SortOfSorted<T>(leq: (T, T) -> bool, s: seq<T>)
    requires SortedBy(leq, s)
    ensures StableSort(leq, s) == s
  {
    if s == [] {
    } else {
      SortOfSorted(leq, s[1..]);
    }
  }

  // ----- lists without repetition -----

  lemma Regroup<T>(a: seq<T>, b: seq<T>, c: seq<T>)
    ensures (a + b) + c == a + (b + c)
  {
  }

  lemma DistinctConcat<T>(a: seq<T>, b: seq<T>)
    requires Distinct(a) && Distinct(b)
    requires forall x :: x in a ==> x !in b
    ensures Distinct(a + b)
  {
    forall i, j | 0 <= i < j < |a + b| ensures (a + b)[i] != (a + b)[j] {
      if i < |a| <= j {
        assert (a + b)[i] in a && (a + b)[j] in b;
      }
    }
  }

  lemma {:induction false} DistinctCount<T>(s: seq<T>, x: T)
    requires Distinct(s)
    ensures multiset(s)[x] == if x in s then 1 else 0
  {
    if s != [] {
      assert s == [s[0]] + s[1..];
      DistinctCount(s[1..], x);
      if s[0] == x {
        assert x !in s[1..];
      }
    }
  }

  lemma DistinctPermuted<T>(s: seq<T>, t: seq<T>)
    requires multiset(s) == multiset(t) && Distinct(s)
    ensures Distinct(t)
  {
    forall i, j | 0 <= i < j < |t| ensures t[i] != t[j] {
      if t[i] == t[j] {
        assert t == t[..i] + [t[i]] + t[i + 1..j] + [t[j]] + t[j + 1..];
        assert multiset(s)[t[i]] >= 2;
        DistinctCount(s, t[i]);
        assert false;
      }
    }
  }

  lemma {:induction false} DistinctFilter<T>(p: T -> bool, s: seq<T>)
    requires Distinct(s)
    ensures Distinct(Filter(p, s))
  {
    if s != [] {
      DistinctFilter(p, s[1..]);
      FilterElements(p, s[1..]);
      var rest := Filter(p, s[1..]);
      forall i | 0 <= i < |rest| ensures rest[i] != s[0] {
        assert rest[i] in s[1..];
      }
    }
  }

  /** No two different elements tie. */
  ghost predicate NoTies<T(!new)>(leq: (T, T) -> bool, s: seq<T>) {
    forall x, y :: x in s && y in s && leq(x, y) && leq(y, x) ==> x == y
  }

  lemma HeadsAgree<T(!new)>(leq: (T, T) -> bool, a: seq<T>, b: seq<T>)
    requires SortedBy(leq, a) && SortedBy(leq, b) && NoTies(leq, b) && multiset(a) == multiset(b)
    requires a != [] && b != []
    ensures a[0] == b[0]
  {
    assert a[0] in multiset(b) && b[0] in multiset(a);
    var i :| 0 <= i < |b| && b[i] == a[0];
    var j :| 0 <= j < |a| && a[j] == b[0];
    if i > 0 && j > 0 {
      assert leq(a[0], a[j]) && leq(b[0], b[i]);
    }
  }

  /** Without ties sorting leaves no choice. */
  lemma {:induction false} SortedUnique<T(!new)>(leq: (T, T) -> bool, a: seq<T>, b: seq<T>)
    requires SortedBy(leq, a) && SortedBy(leq, b) && NoTies(leq, b) && multiset(a) == multiset(b)
    ensures a == b
  {
    assert |multiset(a)| == |multiset(b)|;
    if a != [] {
      HeadsAgree(leq, a, b);
      assert a == [a[0]] + a[1..] && b == [b[0]] + b[1..];
      assert multiset(a[1..]) == multiset(a) - multiset{a[0]};
      assert multiset(b[1..]) == multiset(b) - multiset{b[0]};
      SortedUnique(leq, a[1..], b[1..]);
    }
  }

  // ----- lexicographic order on strings, as Python and Go compare them -----

  predicate StrLeq(a: string, b: string) {
    a == [] || (b != [] && (a[0] < b[0] || (a[0] == b[0] && StrLeq(a[1..], b[1..]))))
  }

  lemma {:induction false} StrLeqTotal(a: string, b: string)
    ensures StrLeq(a, b) || StrLeq(b, a)
    ensures StrLeq(a, b) && StrLeq(b, a) ==> a == b
  {
    if a == [] || b == [] {
    } else {
      StrLeqTotal(a[1..], b[1..]);
      assert a == [a[0]] + a[1..] && b == [b[0]] + b[1..];
    }
  }

  lemma {:induction false} StrLeqTransitive(a: string, b: string, c: string)
    requires StrLeq(a, b) && StrLeq(b, c)
    ensures StrLeq(a, c)
  {
    if a == [] || b == [] || c == [] {
    } else if a[0] == b[0] == c[0] {
      StrLeqTransitive(a[1..], b[1..], c[1..]);
    }
  }

  lemma StrLeqPreorder()
    ensures TotalPreorder(StrLeq)
  {
    forall x, y ensures StrLeq(x, y) || StrLeq(y, x) { StrLeqTotal(x, y); }
    forall x, y, z | StrLeq(x, y) && StrLeq(y, z) ensures StrLeq(x, z) { StrLeqTransitive(x, y, z); }
  }
}
