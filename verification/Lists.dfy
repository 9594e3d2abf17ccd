/** Filtering, mapping and sorting of lists, and what they make of lists with the same elements. */
module Lists {

  function Filter<T>(s: seq<T>, p: T -> bool): (r: seq<T>)
    ensures forall x | x in r :: x in s && p(x)
  {
    if s == [] then [] else (if p(s[0]) then [s[0]] else []) + Filter(s[1..], p)
  }

  function Map<T, U>(s: seq<T>, f: T -> U): (r: seq<U>)
    ensures |r| == |s| && forall k | 0 <= k < |s| :: r[k] == f(s[k])
  {
    seq(|s|, k requires 0 <= k < |s| => f(s[k]))
  }

  ghost predicate SameElements<T>(a: seq<T>, b: seq<T>) { multiset(a) == multiset(b) }

  lemma {:induction false} FilterCounts<T>(s: seq<T>, p: T -> bool, x: T)
    ensures multiset(Filter(s, p))[x] == if p(x) then multiset(s)[x] else 0
  {
    if s != [] {
      FilterCounts(s[1..], p, x);
      assert s == [s[0]] + s[1..];
    }
  }

  lemma {:induction false} FilterAppend<T>(s: seq<T>, x: T, p: T -> bool)
    ensures Filter(s + [x], p) == Filter(s, p) + if p(x) then [x] else []
  {
    hide Filter;
    FilterFirst(s + [x], p);
    if s == [] {
      FilterNone(s, p);
      assert s + [x] == [x] && [x][1..] == s;
    } else {
      FilterAppend(s[1..], x, p);
      FilterFirst(s, p);
      assert (s + [x])[1..] == s[1..] + [x];
    }
  }

  lemma FilterFirst<T>(s: seq<T>, p: T -> bool)
    requires s != []
    ensures Filter(s, p) == (if p(s[0]) then [s[0]] else []) + Filter(s[1..], p)
  {
  }

  lemma FilterNone<T>(s: seq<T>, p: T -> bool)
    requires s == []
    ensures Filter(s, p) == []
  {
  }

  lemma FilterSame<T>(a: seq<T>, b: seq<T>, p: T -> bool)
    requires SameElements(a, b)
    ensures SameElements(Filter(a, p), Filter(b, p))
  {
    hide Filter;
    var m, n := multiset(Filter(a, p)), multiset(Filter(b, p));
    forall x ensures m[x] == n[x] {
      FilterCounts(a, p, x);
      FilterCounts(b, p, x);
    }
    SameCounts(m, n);
  }

  lemma SameCounts<T>(m: multiset<T>, n: multiset<T>)
    requires forall x :: m[x] == n[x]
    ensures m == n
  {
  }

  lemma Cancel<T>(m: multiset<T>, n: multiset<T>, x: T)
    requires m + multiset{x} == n + multiset{x}
    ensures m == n
  {
    assert m == (m + multiset{x}) - multiset{x};
    assert n == (n + multiset{x}) - multiset{x};
  }

  lemma SameLength<T>(a: seq<T>, b: seq<T>)
    requires SameElements(a, b)
    ensures |a| == |b|
  {
    assert |multiset(a)| == |a| && |multiset(b)| == |b|;
  }

  lemma SameSingle<T>(a: seq<T>, b: seq<T>)
    requires SameElements(a, b) && |a| == 1
    ensures a == b
  {
    SameLength(a, b);
    assert a == [a[0]] && b == [b[0]];
    assert multiset(b)[a[0]] == 1;
  }

  /** Takes the element at k out. */
  function Removed<T>(s: seq<T>, k: nat): seq<T>
    requires k < |s|
  {
    s[..k] + s[k + 1..]
  }

  lemma RemovedCounts<T>(s: seq<T>, k: nat)
    requires k < |s|
    ensures multiset(s) == multiset(Removed(s, k)) + multiset{s[k]}
  {
    assert s == s[..k] + [s[k]] + s[k + 1..];
  }

  /** Lists with the same elements still have them once a common one is taken out of both. */
  lemma RemovedSame<T>(a: seq<T>, b: seq<T>, i: nat, k: nat)
    requires SameElements(a, b) && i < |a| && k < |b| && a[i] == b[k]
    ensures SameElements(Removed(a, i), Removed(b, k))
  {
    hide Removed;
    RemovedCounts(a, i);
    RemovedCounts(b, k);
    Cancel(multiset(Removed(a, i)), multiset(Removed(b, k)), a[i]);
  }

  lemma PlaceOf<T>(a: seq<T>, b: seq<T>) returns (k: nat)
    requires SameElements(a, b) && a != []
    ensures k < |b| && b[k] == a[0]
  {
    assert a[0] in multiset(a);
    assert a[0] in b;
    k :| 0 <= k < |b| && b[k] == a[0];
  }

  lemma {:induction false} MapSame<T, U>(a: seq<T>, b: seq<T>, f: T -> U)
    requires SameElements(a, b)
    ensures SameElements(Map(a, f), Map(b, f))
  {
    hide SameElements;
    if a == [] {
      NothingSame(b);
      AlwaysSame(Map(a, f));
    } else {
      var k := PlaceOf(a, b);
      RemovedSame(a, b, 0, k);
      MapSame(Removed(a, 0), Removed(b, k), f);
      assert Removed(Map(a, f), 0) == Map(Removed(a, 0), f);
      assert Removed(Map(b, f), k) == Map(Removed(b, k), f);
      AddedSame(Map(a, f), Map(b, f), 0, k);
    }
  }

  lemma NothingSame<T>(b: seq<T>)
    requires SameElements([], b)
    ensures b == []
  {
    assert |multiset(b)| == |b|;
  }

  lemma AlwaysSame<T>(a: seq<T>)
    ensures SameElements(a, a)
  {
  }

  lemma AddedSame<T>(a: seq<T>, b: seq<T>, i: nat, k: nat)
    requires i < |a| && k < |b| && a[i] == b[k] && SameElements(Removed(a, i), Removed(b, k))
    ensures SameElements(a, b)
  {
    hide Removed;
    RemovedCounts(a, i);
    RemovedCounts(b, k);
  }

  // ---------- Sorting texts ----------

  /** The order of `std::string`. */
  predicate TextLe(a: string, b: string) {
    a == "" || (b != "" && (a[0] < b[0] || (a[0] == b[0] && TextLe(a[1..], b[1..]))))
  }

  lemma {:induction false} TextLeTotal(a: string, b: string)
    ensures TextLe(a, b) || TextLe(b, a)
  {
    if a != "" && b != "" && a[0] == b[0] { TextLeTotal(a[1..], b[1..]); }
  }

  lemma {:induction false} TextLeAntisymmetric(a: string, b: string)
    requires TextLe(a, b) && TextLe(b, a)
    ensures a == b
  {
    if a != "" {
      TextLeAntisymmetric(a[1..], b[1..]);
      assert a == [a[0]] + a[1..] && b == [b[0]] + b[1..];
    }
  }

  lemma {:induction false} TextLeTransitive(a: string, b: string, c: string)
    requires TextLe(a, b) && TextLe(b, c)
    ensures TextLe(a, c)
  {
    if a != "" && a[0] == b[0] == c[0] { TextLeTransitive(a[1..], b[1..], c[1..]); }
  }

  predicate Ordered(s: seq<string>) { forall i, j | 0 <= i < j < |s| :: TextLe(s[i], s[j]) }

  function Insert(x: string, s: seq<string>): seq<string> {
    if s == [] || TextLe(x, s[0]) then [x] + s else [s[0]] + Insert(x, s[1..])
  }

  /** `std::sort` on a vector of strings. */
  function Sorted(s: seq<string>): seq<string> { if s == [] then [] else Insert(s[0], Sorted(s[1..])) }

  lemma {:induction false} InsertElements(x: string, s: seq<string>)
    ensures multiset(Insert(x, s)) == multiset(s) + multiset{x}
  {
    hide TextLe;
    if s != [] {
      InsertElements(x, s[1..]);
      assert s == [s[0]] + s[1..];
    }
  }

  lemma {:induction false} InsertOrdered(x: string, s: seq<string>)
    requires Ordered(s)
    ensures Ordered(Insert(x, s))
  {
    hide TextLe;
    if s == [] {
    } else if TextLe(x, s[0]) {
      forall k | 0 <= k < |s| ensures TextLe(x, s[k]) {
        if k > 0 { TextLeTransitive(x, s[0], s[k]); }
      }
    } else {
      InsertOrdered(x, s[1..]);
      TextLeTotal(x, s[0]);
      var rest := Insert(x, s[1..]);
      forall k | 0 <= k < |rest| ensures TextLe(s[0], rest[k]) {
        InsertedIn(x, s[1..], k);
        if rest[k] != x {
          var j :| 0 <= j < |s[1..]| && s[1..][j] == rest[k];
          assert s[j + 1] == rest[k];
        }
      }
    }
  }

  lemma InsertedIn(x: string, s: seq<string>, k: nat)
    requires k < |Insert(x, s)|
    ensures Insert(x, s)[k] == x || Insert(x, s)[k] in s
  {
    hide Insert;
    InsertElements(x, s);
    assert Insert(x, s)[k] in multiset(Insert(x, s));
  }

  lemma {:induction false} SortedIsOrdered(s: seq<string>)
    ensures Ordered(Sorted(s)) && SameElements(Sorted(s), s)
  {
    if s != [] {
      SortedIsOrdered(s[1..]);
      InsertOrdered(s[0], Sorted(s[1..]));
      InsertElements(s[0], Sorted(s[1..]));
      assert s == [s[0]] + s[1..];
    }
  }

  lemma {:induction false} OrderedUnique(a: seq<string>, b: seq<string>)
    requires Ordered(a) && Ordered(b) && SameElements(a, b)
    ensures a == b
  {
    hide SameElements, TextLe, Ordered;
    SameLength(a, b);
    if a != [] {
      SameFirst(a, b);
      RestSame(a, b);
      RestOrdered(a);
      RestOrdered(b);
      OrderedUnique(a[1..], b[1..]);
      assert a == [a[0]] + a[1..] && b == [b[0]] + b[1..];
    }
  }

  lemma SameFirst(a: seq<string>, b: seq<string>)
    requires Ordered(a) && Ordered(b) && SameElements(a, b) && a != [] && b != []
    ensures a[0] == b[0]
  {
    hide SameElements, TextLe, Ordered;
    FirstIsLeast(a, b);
    SameSwapped(a, b);
    FirstIsLeast(b, a);
    TextLeAntisymmetric(a[0], b[0]);
  }

  lemma RestSame<T>(a: seq<T>, b: seq<T>)
    requires SameElements(a, b) && a != [] && b != [] && a[0] == b[0]
    ensures SameElements(a[1..], b[1..])
  {
    hide SameElements;
    RemovedSame(a, b, 0, 0);
    assert Removed(a, 0) == a[1..] && Removed(b, 0) == b[1..];
  }

  lemma RestOrdered(s: seq<string>)
    requires Ordered(s) && s != []
    ensures Ordered(s[1..])
  {
    hide TextLe;
  }

  lemma SameSwapped<T>(a: seq<T>, b: seq<T>)
    requires SameElements(a, b)
    ensures SameElements(b, a)
  {
  }

  lemma FirstIsLeast(a: seq<string>, b: seq<string>)
    requires Ordered(a) && SameElements(a, b) && a != [] && b != []
    ensures TextLe(a[0], b[0])
  {
    assert b[0] in multiset(b);
    assert b[0] in a;
    TextLeTotal(a[0], a[0]);
  }

  /** Sorting forgets the order. */
  lemma SortedSame(a: seq<string>, b: seq<string>)
    requires SameElements(a, b)
    ensures Sorted(a) == Sorted(b)
  {
    SortedIsOrdered(a);
    SortedIsOrdered(b);
    OrderedUnique(Sorted(a), Sorted(b));
  }
}
