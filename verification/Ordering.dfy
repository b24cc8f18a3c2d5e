/**
 Sorting by a key, removing repetitions and collecting over a list, with the one fact that makes a
 selection deterministic: equal collections sort to the same list when the key tells elements apart.
 */
module Ordering {

  ghost predicate Preorder<T(!new)>(le: (T, T) -> bool) {
    && (forall x, y :: le(x, y) || le(y, x))
    && (forall x, y, z :: le(x, y) && le(y, z) ==> le(x, z))
  }

  predicate Sorted<T>(s: seq<T>, le: (T, T) -> bool) {
    forall i, j :: 0 <= i < j < |s| ==> le(s[i], s[j])
  }

  /** The order tells the elements of `s` apart. */
  predicate Separates<T(==)>(s: seq<T>, le: (T, T) -> bool) {
    forall x, y :: x in s && y in s && le(x, y) && le(y, x) ==> x == y
  }

  function InsertBy<T>(x: T, s: seq<T>, le: (T, T) -> bool): seq<T> {
    if s == [] || le(x, s[0]) then [x] + s else [s[0]] + InsertBy(x, s[1..], le)
  }

  /** The stable sort. */
  function SortBy<T>(s: seq<T>, le: (T, T) -> bool): seq<T> {
    if s == [] then [] else InsertBy(s[0], SortBy(s[1..], le), le)
  }

  lemma SortedCons<T(!new)>(h: T, t: seq<T>, le: (T, T) -> bool)
    requires Sorted(t, le) && forall y :: y in multiset(t) ==> le(h, y)
    ensures Sorted([h] + t, le)
  {
    forall j | 0 <= j < |t| ensures le(h, t[j]) {
      assert t[j] in multiset(t);
    }
  }

  lemma {:induction false} InsertBySorts<T(!new)>(x: T, s: seq<T>, le: (T, T) -> bool)
    requires Preorder(le) && Sorted(s, le)
    ensures Sorted(InsertBy(x, s, le), le)
    ensures multiset(InsertBy(x, s, le)) == multiset(s) + multiset{x}
  {
    if s == [] || le(x, s[0]) {
      SortedCons(x, s, le);
    } else {
      var tail := InsertBy(x, s[1..], le);
      InsertBySorts(x, s[1..], le);
      assert s == [s[0]] + s[1..];
      forall y | y in multiset(tail) ensures le(s[0], y) {
        assert y == x || y in s[1..];
      }
      SortedCons(s[0], tail, le);
    }
  }

  lemma {:induction false} SortBySorts<T(!new)>(s: seq<T>, le: (T, T) -> bool)
    requires Preorder(le)
    ensures Sorted(SortBy(s, le), le) && multiset(SortBy(s, le)) == multiset(s)
  {
    if s != [] {
      SortBySorts(s[1..], le);
      InsertBySorts(s[0], SortBy(s[1..], le), le);
      assert s == [s[0]] + s[1..];
    }
  }

  lemma SameElements<T(!new)>(a: seq<T>, b: seq<T>)
    requires multiset(a) == multiset(b)
    ensures |a| == |b| && forall x :: x in a <==> x in b
  {
    assert |multiset(a)| == |multiset(b)|;
    forall x ensures x in a <==> x in b {
      assert x in a <==> x in multiset(a);
      assert x in b <==> x in multiset(b);
    }
  }

  lemma TakeOutMiddle<T>(p: seq<T>, m: seq<T>, q: seq<T>)
    ensures multiset(p + m + q) == multiset(p + q) + multiset(m)
  {}

  /** A list without its element at `k`. */
  function Without<T>(s: seq<T>, k: nat): seq<T>
    requires k < |s|
  {
    s[..k] + s[k + 1..]
  }

  lemma WithoutOne<T>(s: seq<T>, k: nat)
    requires k < |s|
    ensures multiset(Without(s, k)) == multiset(s) - multiset([s[k]])
  {
    TakeOutMiddle(s[..k], [s[k]], s[k + 1..]);
    assert s == s[..k] + [s[k]] + s[k + 1..];
  }

  lemma SameHead<T(!new)>(a: seq<T>, b: seq<T>, le: (T, T) -> bool)
    requires a != [] && b != [] && a[0] in b && b[0] in a
    requires Sorted(a, le) && Sorted(b, le) && Separates(a, le)
    ensures a[0] == b[0]
  {
    var i :| 0 <= i < |b| && b[i] == a[0];
    var j :| 0 <= j < |a| && a[j] == b[0];
  }

  lemma {:induction false} SortedIsUnique<T(!new)>(a: seq<T>, b: seq<T>, le: (T, T) -> bool)
    requires Sorted(a, le) && Sorted(b, le) && multiset(a) == multiset(b) && Separates(a, le)
    ensures a == b
  {
    SameElements(a, b);
    if a != [] {
      SameHead(a, b, le);
      WithoutOne(a, 0);
      WithoutOne(b, 0);
      assert Without(a, 0) == a[1..] && Without(b, 0) == b[1..];
      SortedIsUnique(a[1..], b[1..], le);
    }
  }

  lemma {:induction false} SortIgnoresOrder<T(!new)>(a: seq<T>, b: seq<T>, le: (T, T) -> bool)
    requires Preorder(le) && multiset(a) == multiset(b) && Separates(a, le)
    ensures SortBy(a, le) == SortBy(b, le)
  {
    SortBySorts(a, le);
    SortBySorts(b, le);
    SameElements(a, SortBy(a, le));
    SortedIsUnique(SortBy(a, le), SortBy(b, le), le);
  }

  predicate Unique<T(==)>(s: seq<T>) {
    forall i, j :: 0 <= i < j < |s| ==> s[i] != s[j]
  }

  lemma UniqueNext<T(!new)>(s: seq<T>, x: T)
    ensures Unique(s + [x]) <==> Unique(s) && x !in s
  {
    var t := s + [x];
    assert forall i :: 0 <= i < |s| ==> t[i] == s[i];
    assert t[|s|] == x;
  }

  function Set<T>(s: seq<T>): set<T> {
    set x | x in s
  }

  lemma {:induction false} SizeOfSet<T(!new)>(s: seq<T>)
    ensures |Set(s)| <= |s|
    ensures |Set(s)| == |s| <==> Unique(s)
  {
    if s == [] {
      assert Set(s) == {};
    } else {
      var init, last := s[..|s| - 1], s[|s| - 1];
      SizeOfSet(init);
      assert s == init + [last];
      UniqueNext(init, last);
      assert Set(s) == Set(init) + {last};
    }
  }

  /** Every element once, where it first occurs. */
  function Distincts<T(==, !new)>(s: seq<T>): (r: seq<T>)
    ensures Unique(r) && forall x :: x in r <==> x in s
  {
    if s == [] then [] else
      var r := Distincts(s[..|s| - 1]);
      assert s == s[..|s| - 1] + [s[|s| - 1]];
      if s[|s| - 1] in r then r else r + [s[|s| - 1]]
  }

  lemma {:induction false} DistinctsNext<T(!new)>(s: seq<T>, x: T)
    ensures Distincts(s + [x]) == if x in s then Distincts(s) else Distincts(s) + [x]
  {
    assert (s + [x])[..|s|] == s;
  }

  lemma {:induction false} UniqueCounts<T(!new)>(s: seq<T>, x: T)
    requires Unique(s)
    ensures multiset(s)[x] == if x in s then 1 else 0
  {
    if s != [] {
      var last := |s| - 1;
      UniqueCounts(s[..last], x);
      assert s == s[..last] + [s[last]];
    }
  }

  lemma SameSetSameMultiset<T(!new)>(a: seq<T>, b: seq<T>)
    requires Unique(a) && Unique(b) && forall x :: x in a <==> x in b
    ensures multiset(a) == multiset(b)
  {
    forall x ensures multiset(a)[x] == multiset(b)[x] {
      UniqueCounts(a, x);
      UniqueCounts(b, x);
    }
  }

  /** What `f` yields on the first `n` elements of `s`, after `before`. */
  function Onto<T, U>(before: seq<U>, s: seq<T>, n: nat, f: T -> seq<U>): seq<U>
    requires n <= |s|
  {
    if n == 0 then before else Onto(before, s, n - 1, f) + f(s[n - 1])
  }

  /** What `f` yields on the elements of `s`, in order. */
  function Gather<T, U>(s: seq<T>, f: T -> seq<U>): seq<U> {
    Onto([], s, |s|, f)
  }

  lemma {:induction false} OntoAppends<T, U>(before: seq<U>, s: seq<T>, n: nat, f: T -> seq<U>)
    requires n <= |s|
    ensures Onto(before, s, n, f) == before + Onto([], s, n, f)
  {
    if n > 0 {
      OntoAppends(before, s, n - 1, f);
    }
  }

  lemma {:induction false} OntoPrefix<T, U>(before: seq<U>, a: seq<T>, b: seq<T>, n: nat, f: T -> seq<U>)
    requires n <= |a| <= |b| && a == b[..|a|]
    ensures Onto(before, a, n, f) == Onto(before, b, n, f)
  {
    if n > 0 {
      OntoPrefix(before, a, b, n - 1, f);
    }
  }

  lemma {:induction false} GatherSplits<T, U>(a: seq<T>, b: seq<T>, f: T -> seq<U>)
    ensures Gather(a + b, f) == Gather(a, f) + Gather(b, f)
  {
    if b == [] {
      assert a + b == a;
    } else {
      var last := |b| - 1;
      GatherSplits(a, b[..last], f);
      OntoPrefix([], b[..last], b, last, f);
      OntoPrefix([], a + b[..last], a + b, |a| + last, f);
    }
  }

  lemma {:induction false} OntoHolds<T(!new), U>(s: seq<T>, n: nat, f: T -> seq<U>, u: U)
    requires n <= |s|
    ensures u in Onto([], s, n, f) <==> exists k :: 0 <= k < n && u in f(s[k])
  {
    if n > 0 {
      OntoHolds(s, n - 1, f, u);
    }
  }

  lemma GatherHolds<T(!new), U>(s: seq<T>, f: T -> seq<U>, u: U)
    ensures u in Gather(s, f) <==> exists x :: x in s && u in f(x)
  {
    OntoHolds(s, |s|, f, u);
  }

  lemma GatherAround<T, U>(s: seq<T>, f: T -> seq<U>, k: nat)
    requires k < |s|
    ensures Gather(s, f) == Gather(s[..k], f) + f(s[k]) + Gather(s[k + 1..], f)
  {
    assert s == s[..k + 1] + s[k + 1..];
    GatherSplits(s[..k + 1], s[k + 1..], f);
    OntoPrefix([], s[..k], s[..k + 1], k, f);
  }

  lemma GatherWithout<T, U>(s: seq<T>, f: T -> seq<U>, k: nat)
    requires k < |s|
    ensures multiset(Gather(s, f)) == multiset(Gather(Without(s, k), f)) + multiset(f(s[k]))
  {
    GatherAround(s, f, k);
    GatherSplits(s[..k], s[k + 1..], f);
    TakeOutMiddle(Gather(s[..k], f), f(s[k]), Gather(s[k + 1..], f));
  }

  lemma {:induction false} OntoGrows<T, U>(s: seq<T>, a: nat, n: nat, f: T -> seq<U>)
    requires a <= n <= |s|
    ensures |Onto([], s, a, f)| <= |Onto([], s, n, f)|
  {
    if a < n {
      OntoGrows(s, a, n - 1, f);
    }
  }

  /** Element `i` of what was collected came from element `a` of the list. */
  lemma {:induction false} GatherFrom<T, U>(s: seq<T>, n: nat, f: T -> seq<U>, i: nat) returns (a: nat)
    requires n <= |s| && i < |Onto([], s, n, f)|
    ensures a < n && Onto([], s, n, f)[i] in f(s[a])
    ensures |Onto([], s, a, f)| <= i < |Onto([], s, a + 1, f)|
  {
    if i < |Onto([], s, n - 1, f)| {
      a := GatherFrom(s, n - 1, f, i);
    } else {
      a := n - 1;
      assert Onto([], s, n, f)[i] == f(s[a])[i - |Onto([], s, a, f)|];
    }
  }

  /** Where what element `a` yields is found. */
  lemma {:induction false} GatherAt<T, U>(s: seq<T>, n: nat, f: T -> seq<U>, a: nat, y: nat)
    requires a < n <= |s| && y < |f(s[a])|
    ensures |Onto([], s, a, f)| + y < |Onto([], s, a + 1, f)| <= |Onto([], s, n, f)|
    ensures Onto([], s, n, f)[|Onto([], s, a, f)| + y] == f(s[a])[y]
  {
    if a < n - 1 {
      GatherAt(s, n - 1, f, a, y);
    }
  }

  /** What is collected keeps the order of the list. */
  lemma {:induction false} GatherInOrder<T, U>(s: seq<T>, f: T -> seq<U>, i: nat, j: nat) returns (a: nat, b: nat)
    requires i <= j < |Gather(s, f)|
    ensures a <= b < |s| && Gather(s, f)[i] in f(s[a]) && Gather(s, f)[j] in f(s[b])
  {
    a := GatherFrom(s, |s|, f, i);
    b := GatherFrom(s, |s|, f, j);
    if b < a {
      OntoGrows(s, b + 1, a, f);
    }
  }

  /** What comes first among what was collected came from an element that is no later than any that yields `u`,
      if `u` was not collected before it. */
  lemma {:induction false} OriginIsNoLater<T(!new), U(!new)>(s: seq<T>, f: T -> seq<U>, k: nat, t: T, u: U)
    returns (a: nat, x: nat)
    requires k < |Gather(s, f)| && t in s && u in f(t) && forall h :: 0 <= h < k ==> Gather(s, f)[h] != u
    ensures a <= x < |s| && s[x] == t && Gather(s, f)[k] in f(s[a])
  {
    x :| 0 <= x < |s| && s[x] == t;
    var y :| 0 <= y < |f(t)| && f(t)[y] == u;
    GatherAt(s, |s|, f, x, y);
    a := GatherFrom(s, |s|, f, k);
    if x < a {
      OntoGrows(s, x + 1, a, f);
    }
  }

  lemma {:induction false} GatherIgnoresOrder<T(!new), U>(a: seq<T>, b: seq<T>, f: T -> seq<U>)
    requires multiset(a) == multiset(b)
    ensures multiset(Gather(a, f)) == multiset(Gather(b, f))
    decreases |a|
  {
    SameElements(a, b);
    if a != [] {
      assert a[0] in b;
      var k :| 0 <= k < |b| && b[k] == a[0];
      WithoutOne(a, 0);
      WithoutOne(b, k);
      GatherWithout(a, f, 0);
      GatherWithout(b, f, k);
      GatherIgnoresOrder(Without(a, 0), Without(b, k), f);
    }
  }

  lemma {:induction false} OntoSame<T, U>(s: seq<T>, n: nat, f: T -> seq<U>, g: T -> seq<U>)
    requires n <= |s| && forall k :: 0 <= k < |s| ==> f(s[k]) == g(s[k])
    ensures Onto([], s, n, f) == Onto([], s, n, g)
  {
    if n > 0 {
      OntoSame(s, n - 1, f, g);
    }
  }

  lemma GatherSame<T, U>(s: seq<T>, f: T -> seq<U>, g: T -> seq<U>)
    requires forall k :: 0 <= k < |s| ==> f(s[k]) == g(s[k])
    ensures Gather(s, f) == Gather(s, g)
  {
    OntoSame(s, |s|, f, g);
  }

  lemma SameMultisetKeepsUnique<T(!new)>(a: seq<T>, b: seq<T>)
    requires multiset(a) == multiset(b) && Unique(a)
    ensures Unique(b)
  {
    forall i, j | 0 <= i < j < |b| ensures b[i] != b[j] {
      if b[i] == b[j] {
        WithoutOne(b, i);
        assert Without(b, i)[j - 1] == b[j];
        assert b[j] in multiset(Without(b, i));
        UniqueCounts(a, b[i]);
      }
    }
  }

  /** Strings by code point, as Python compares them. */
  predicate Alphabetic(s: string, t: string) {
    s == [] || (t != [] && (s[0] < t[0] || (s[0] == t[0] && Alphabetic(s[1..], t[1..]))))
  }

  lemma {:induction false} AlphabeticIsTotal(s: string, t: string)
    ensures Alphabetic(s, t) || Alphabetic(t, s)
    ensures Alphabetic(s, t) && Alphabetic(t, s) ==> s == t
  {
    if s != [] && t != [] && s[0] == t[0] {
      AlphabeticIsTotal(s[1..], t[1..]);
      assert s == [s[0]] + s[1..] && t == [t[0]] + t[1..];
    }
  }

  lemma {:induction false} AlphabeticIsTransitive(s: string, t: string, u: string)
    requires Alphabetic(s, t) && Alphabetic(t, u)
    ensures Alphabetic(s, u)
  {
    if s != [] && s[0] == t[0] == u[0] {
      AlphabeticIsTransitive(s[1..], t[1..], u[1..]);
    }
  }

  lemma AlphabeticIsPreorder()
    ensures Preorder(Alphabetic)
  {
    forall s, t ensures Alphabetic(s, t) || Alphabetic(t, s) {
      AlphabeticIsTotal(s, t);
    }
    forall s, t, u | Alphabetic(s, t) && Alphabetic(t, u) ensures Alphabetic(s, u) {
      AlphabeticIsTransitive(s, t, u);
    }
  }

  /** Dates as day numbers. */
  predicate Earlier(a: int, b: int) {
    a <= b
  }

  /** The distinct dates of a list, ascending: `sorted` of a set. */
  function Dates(days: seq<int>): seq<int> {
    SortBy(Distincts(days), Earlier)
  }

  predicate Ascending(s: seq<int>) {
    forall i, j :: 0 <= i < j < |s| ==> s[i] < s[j]
  }

  lemma DatesAscend(days: seq<int>)
    ensures Ascending(Dates(days)) && forall d :: d in Dates(days) <==> d in days
    ensures Dates(days) == [] <==> days == []
  {
    assert days != [] ==> days[0] in Distincts(days);
    SortBySorts(Distincts(days), Earlier);
    SameElements(Distincts(days), Dates(days));
    SameMultisetKeepsUnique(Distincts(days), Dates(days));
  }
}
