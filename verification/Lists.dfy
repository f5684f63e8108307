/** Facts about sequences that several models need. */
module Lists {

  function Map<T, U>(f: T -> U, s: seq<T>): (r: seq<U>)
    ensures |r| == |s| && forall i | 0 <= i < |s| :: r[i] == f(s[i])
  {
    seq(|s|, i requires 0 <= i < |s| => f(s[i]))
  }

  ghost predicate TotalOrder<T(!new)>(le: (T, T) -> bool) {
    && (forall a, b :: le(a, b) || le(b, a))
    && (forall a, b :: le(a, b) && le(b, a) ==> a == b)
    && (forall a, b, c :: le(a, b) && le(b, c) ==> le(a, c))
  }

  ghost predicate Sorted<T>(le: (T, T) -> bool, s: seq<T>) {
    forall i, j | 0 <= i < j < |s| :: le(s[i], s[j])
  }

  lemma {:induction false} RemoveAt<T>(s: seq<T>, k: nat)
    requires k < |s|
    ensures multiset(s) == multiset(s[..k] + s[k + 1..]) + multiset{s[k]}
  {
    assert s == s[..k] + [s[k]] + s[k + 1..];
  }

  lemma {:induction false} HeadAndTail<T>(s: seq<T>)
    requires s != []
    ensures multiset(s) == multiset(s[1..]) + multiset{s[0]}
  {
    assert s == [s[0]] + s[1..];
  }

  lemma {:induction false} MapRemoves<T, U>(f: T -> U, s: seq<T>, k: nat)
    requires k < |s|
    ensures Map(f, s)[..k] + Map(f, s)[k + 1..] == Map(f, s[..k] + s[k + 1..])
  {
  }

  /** Taking the head of one list out of a permutation of it. */
  lemma {:induction false} SameRest<T>(a: seq<T>, b: seq<T>, k: nat)
    requires multiset(a) == multiset(b) && a != [] && k < |b| && b[k] == a[0]
    ensures multiset(a[1..]) == multiset(b[..k] + b[k + 1..])
  {
    RemoveAt(b, k);
    HeadAndTail(a);
    var x := multiset{a[0]};
    assert multiset(a[1..]) == (multiset(a[1..]) + x) - x;
    assert multiset(b[..k] + b[k + 1..]) == (multiset(b[..k] + b[k + 1..]) + x) - x;
  }

  lemma {:induction false} MapSameRest<T, U>(f: T -> U, a: seq<T>, b: seq<T>, k: nat)
    requires a != [] && k < |b| && b[k] == a[0]
    requires multiset(Map(f, a[1..])) == multiset(Map(f, b[..k] + b[k + 1..]))
    ensures multiset(Map(f, a)) == multiset(Map(f, b))
  {
    HeadAndTail(Map(f, a));
    assert Map(f, a)[1..] == Map(f, a[1..]);
    RemoveAt(Map(f, b), k);
    MapRemoves(f, b, k);
  }

  lemma {:induction false} MapKeepsPermutation<T, U>(f: T -> U, a: seq<T>, b: seq<T>)
    requires multiset(a) == multiset(b)
    ensures multiset(Map(f, a)) == multiset(Map(f, b))
  {
    assert |a| == |multiset(a)| == |multiset(b)| == |b|;
    if a == [] {
      assert a == b;
    } else {
      assert a[0] in multiset(b);
      var k :| 0 <= k < |b| && b[k] == a[0];
      SameRest(a, b, k);
      hide Map;
      MapKeepsPermutation(f, a[1..], b[..k] + b[k + 1..]);
      MapSameRest(f, a, b, k);
    }
  }

  /** A sorted list is determined by what it contains. */
  lemma {:induction false} SortedUnique<T(!new)>(le: (T, T) -> bool, a: seq<T>, b: seq<T>)
    requires TotalOrder(le) && Sorted(le, a) && Sorted(le, b) && multiset(a) == multiset(b)
    ensures a == b
  {
    assert |a| == |multiset(a)| == |multiset(b)| == |b|;
    if a != [] {
      assert a[0] in multiset(b) && b[0] in multiset(a);
      var i :| 0 <= i < |b| && b[i] == a[0];
      var j :| 0 <= j < |a| && a[j] == b[0];
      assert a[0] == b[0];
      HeadAndTail(a);
      HeadAndTail(b);
      assert multiset(a[1..]) == multiset(a) - multiset{a[0]};
      assert multiset(b[1..]) == multiset(b) - multiset{b[0]};
      SortedUnique(le, a[1..], b[1..]);
    }
  }

  /** Distinct members of a finite set number at most its size. */
  lemma {:induction false} SubsetSize<T>(a: set<T>, b: set<T>)
    requires a <= b
    ensures |a| <= |b|
  {
    if a != {} {
      var x :| x in a;
      SubsetSize(a - {x}, b - {x});
    }
  }

  lemma {:induction false} SubsetMissing<T>(a: set<T>, x: T, b: set<T>)
    requires a <= b && x in b && x !in a
    ensures |a| < |b|
  {
    SubsetSize(a, b - {x});
  }

  // ---------- sorting ----------

  /** `str` comparison: the first differing character decides, a prefix comes first. */
  predicate StrLe(a: string, b: string) {
    if a == "" then true
    else if b == "" then false
    else a[0] < b[0] || (a[0] == b[0] && StrLe(a[1..], b[1..]))
  }

  /** The first text comes first in a dictionary: at the first place where they differ it is smaller, or it ends. */
  ghost predicate Before(a: string, b: string) {
    a != b && exists k | 0 <= k <= |a| && k <= |b| :: DiffersAt(a, b, k)
  }

  predicate DiffersAt(a: string, b: string, k: nat)
    requires k <= |a| && k <= |b|
  {
    a[..k] == b[..k] && (k == |a| || (k < |b| && a[k] < b[k]))
  }

  lemma {:induction false} DiffersLater(a: string, b: string, k: nat)
    requires a != "" && b != "" && k <= |a| && k <= |b| && DiffersAt(a, b, k)
    ensures k == 0 || a[0] == b[0]
  {
    if k > 0 {
      assert a[..k][0] == a[0] && b[..k][0] == b[0];
    }
  }

  lemma {:induction false} StrLeIff(a: string, b: string)
    ensures StrLe(a, b) <==> a == b || Before(a, b)
  {
    if a == "" {
      assert DiffersAt(a, b, 0);
    } else if b == "" {
    } else if a[0] == b[0] {
      StrLeIff(a[1..], b[1..]);
      assert a == [a[0]] + a[1..] && b == [b[0]] + b[1..];
      if Before(a[1..], b[1..]) {
        var k :| 0 <= k <= |a[1..]| && k <= |b[1..]| && DiffersAt(a[1..], b[1..], k);
        assert a[..k + 1] == [a[0]] + a[1..][..k] && b[..k + 1] == [b[0]] + b[1..][..k];
        assert DiffersAt(a, b, k + 1);
      }
      if Before(a, b) {
        var k :| 0 <= k <= |a| && k <= |b| && DiffersAt(a, b, k);
        assert k > 0;
        assert a[1..][..k - 1] == a[..k][1..] && b[1..][..k - 1] == b[..k][1..];
        assert DiffersAt(a[1..], b[1..], k - 1);
      }
    } else {
      if Before(a, b) {
        var k :| 0 <= k <= |a| && k <= |b| && DiffersAt(a, b, k);
        DiffersLater(a, b, k);
      }
      assert a[0] < b[0] ==> DiffersAt(a, b, 0);
    }
  }

  lemma {:induction false} StrLeOrder(a: string, b: string, c: string)
    ensures StrLe(a, b) || StrLe(b, a)
    ensures StrLe(a, b) && StrLe(b, a) ==> a == b
    ensures StrLe(a, b) && StrLe(b, c) ==> StrLe(a, c)
    decreases |a| + |b| + |c|
  {
    if a != "" && b != "" && c != "" {
      StrLeOrder(a[1..], b[1..], c[1..]);
    } else if a != "" && b != "" {
      StrLeOrder(a[1..], b[1..], c);
    }
    if a != "" && b != "" && a[0] == b[0] && a[1..] == b[1..] {
      assert a == [a[0]] + a[1..] && b == [b[0]] + b[1..];
    }
  }

  ghost predicate Preorder<T(!new)>(le: (T, T) -> bool) {
    && (forall a, b :: le(a, b) || le(b, a))
    && (forall a, b, c :: le(a, b) && le(b, c) ==> le(a, c))
  }

  function Insert<T>(le: (T, T) -> bool, x: T, sorted: seq<T>): seq<T> {
    if sorted == [] || le(x, sorted[0]) then [x] + sorted else [sorted[0]] + Insert(le, x, sorted[1..])
  }

  /** A stable sort. */
  function SortBy<T>(le: (T, T) -> bool, s: seq<T>): seq<T> {
    if s == [] then [] else Insert(le, s[0], SortBy(le, s[1..]))
  }

  lemma {:induction false} SortedCons<T(!new)>(le: (T, T) -> bool, x: T, s: seq<T>)
    requires Sorted(le, s) && forall y | y in s :: le(x, y)
    ensures Sorted(le, [x] + s)
  {
    assert forall i | 0 < i <= |s| :: ([x] + s)[i] == s[i - 1] && s[i - 1] in s;
  }

  lemma {:induction false} SortedTail<T(!new)>(le: (T, T) -> bool, s: seq<T>)
    requires Sorted(le, s) && s != []
    ensures Sorted(le, s[1..]) && forall y | y in s[1..] :: le(s[0], y)
  {
  }

  lemma {:induction false} InsertMembers<T>(le: (T, T) -> bool, x: T, sorted: seq<T>)
    ensures multiset(Insert(le, x, sorted)) == multiset(sorted) + multiset{x}
    ensures forall y | y in Insert(le, x, sorted) :: y == x || y in sorted
  {
    if sorted != [] && !le(x, sorted[0]) {
      HeadAndTail(sorted);
      InsertMembers(le, x, sorted[1..]);
    }
  }

  lemma {:induction false} InsertSorts<T(!new)>(le: (T, T) -> bool, x: T, sorted: seq<T>)
    requires Preorder(le) && Sorted(le, sorted)
    ensures Sorted(le, Insert(le, x, sorted))
  {
    if sorted != [] {
      SortedTail(le, sorted);
      assert sorted == [sorted[0]] + sorted[1..];
      hide Sorted;
      if le(x, sorted[0]) {
        SortedCons(le, x, sorted);
      } else {
        InsertSorts(le, x, sorted[1..]);
        InsertMembers(le, x, sorted[1..]);
        SortedCons(le, sorted[0], Insert(le, x, sorted[1..]));
      }
    }
  }

  lemma {:induction false} SortBySorts<T(!new)>(le: (T, T) -> bool, s: seq<T>)
    requires Preorder(le)
    ensures Sorted(le, SortBy(le, s)) && multiset(SortBy(le, s)) == multiset(s)
  {
    if s != [] {
      SortBySorts(le, s[1..]);
      InsertSorts(le, s[0], SortBy(le, s[1..]));
      InsertMembers(le, s[0], SortBy(le, s[1..]));
      HeadAndTail(s);
    }
  }

  predicate NoDuplicates<T(==)>(s: seq<T>) {
    forall i, j | 0 <= i < j < |s| :: s[i] != s[j]
  }

  lemma {:induction false} SamePermutation<T>(a: seq<T>, b: seq<T>)
    requires multiset(a) == multiset(b) && NoDuplicates(b)
    ensures NoDuplicates(a) && forall x :: x in a <==> x in b
  {
    forall x ensures x in a <==> x in b {
      assert x in multiset(a) <==> x in multiset(b);
    }
    forall i, j | 0 <= i < j < |a| ensures a[i] != a[j] {
      CountedOnce(b, a[i]);
      assert a == a[..j] + [a[j]] + a[j + 1..];
      assert a[i] in a[..j] by { assert a[..j][i] == a[i]; }
      assert multiset(a) == multiset(a[..j]) + multiset([a[j]]) + multiset(a[j + 1..]);
    }
  }

  lemma {:induction false} CountedOnce<T>(s: seq<T>, x: T)
    requires NoDuplicates(s)
    ensures multiset(s)[x] == if x in s then 1 else 0
  {
    if s != [] {
      HeadAndTail(s);
      CountedOnce(s[1..], x);
      assert s == [s[0]] + s[1..];
      assert forall i | 0 <= i < |s| - 1 :: s[1..][i] == s[i + 1];
    }
  }

  /** Lists without duplicates that have the same members are permutations of each other. */
  lemma {:induction false} SameMembers<T>(a: seq<T>, b: seq<T>)
    requires NoDuplicates(a) && NoDuplicates(b) && forall x :: x in a <==> x in b
    ensures multiset(a) == multiset(b)
  {
    forall x ensures multiset(a)[x] == multiset(b)[x] {
      CountedOnce(a, x);
      CountedOnce(b, x);
    }
  }
}
