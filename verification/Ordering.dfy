/** Orders, sorting, and when sorted lists are determined by their elements. */
module Ordering {
  type Order<!T> = (T, T) -> bool

  predicate SortedBy<T>(xs: seq<T>, leq: Order<T>) {
    forall i, j | 0 <= i < j < |xs| :: leq(xs[i], xs[j])
  }

  /** Any two elements compare, and comparing is transitive. */
  ghost predicate Preorder<T(!new)>(leq: Order<T>) {
    && (forall x, y :: leq(x, y) || leq(y, x))
    && (forall x, y, z :: leq(x, y) && leq(y, z) ==> leq(x, z))
  }

  function Insert<T>(x: T, xs: seq<T>, leq: Order<T>): seq<T> {
    if xs == [] then [x]
    else if leq(x, xs[0]) then [x] + xs
    else [xs[0]] + Insert(x, xs[1..], leq)
  }

  /** A stable sort. */
  function Sort<T>(xs: seq<T>, leq: Order<T>): seq<T> {
    if xs == [] then [] else Insert(xs[0], Sort(xs[1..], leq), leq)
  }

  lemma {:induction false} InsertElements<T>(x: T, xs: seq<T>, leq: Order<T>)
    ensures multiset(Insert(x, xs, leq)) == multiset(xs) + multiset{x}
  {
    if xs != [] && !leq(x, xs[0]) {
      InsertElements(x, xs[1..], leq);
      assert xs == [xs[0]] + xs[1..];
    }
  }

  lemma {:induction false} MemberOfInsert<T>(x: T, xs: seq<T>, leq: Order<T>, i: nat)
    requires i < |Insert(x, xs, leq)|
    ensures var y := Insert(x, xs, leq)[i]; y == x || y in xs
  {
    InsertElements(x, xs, leq);
    var y := Insert(x, xs, leq)[i];
    assert y in multiset(Insert(x, xs, leq));
  }

  lemma {:induction false} InsertSorted<T(!new)>(x: T, xs: seq<T>, leq: Order<T>)
    requires Preorder(leq) && SortedBy(xs, leq)
    ensures SortedBy(Insert(x, xs, leq), leq)
  {
    if xs != [] {
      if leq(x, xs[0]) {
        var r := [x] + xs;
        forall i, j | 0 <= i < j < |r| ensures leq(r[i], r[j]) {
          assert j > 1 ==> leq(xs[0], xs[j - 1]);
        }
      } else {
        InsertSorted(x, xs[1..], leq);
        var rest := Insert(x, xs[1..], leq);
        forall k | 0 <= k < |rest| ensures leq(xs[0], rest[k]) {
          MemberOfInsert(x, xs[1..], leq, k);
        }
      }
    }
  }

  /** Sorting sorts, and keeps exactly the elements. */
  lemma {:induction false} SortSorts<T(!new)>(xs: seq<T>, leq: Order<T>)
    requires Preorder(leq)
    ensures SortedBy(Sort(xs, leq), leq) && multiset(Sort(xs, leq)) == multiset(xs)
  {
    if xs != [] {
      SortSorts(xs[1..], leq);
      InsertSorted(xs[0], Sort(xs[1..], leq), leq);
      InsertElements(xs[0], Sort(xs[1..], leq), leq);
      assert xs == [xs[0]] + xs[1..];
    }
  }

  /** Elements of the list that compare both ways are the same. */
  ghost predicate Distinguishes<T>(xs: seq<T>, leq: Order<T>) {
    forall x, y | x in xs && y in xs && leq(x, y) && leq(y, x) :: x == y
  }

  lemma {:induction false} SameMembers<T>(a: seq<T>, b: seq<T>)
    requires multiset(a) == multiset(b)
    ensures |a| == |b| && forall x :: x in a <==> x in b
  {
    assert |a| == |multiset(a)| == |multiset(b)| == |b|;
    assert forall x :: x in a <==> x in multiset(a);
    assert forall x :: x in b <==> x in multiset(b);
  }

  /** Two sorted lists of the same elements are the same list. */
  lemma {:induction false} SortedUnique<T(!new)>(a: seq<T>, b: seq<T>, leq: Order<T>)
    requires Preorder(leq) && SortedBy(a, leq) && SortedBy(b, leq) && multiset(a) == multiset(b)
    requires Distinguishes(a, leq)
    ensures a == b
    decreases |a|
  {
    SameMembers(a, b);
    if a != [] {
      assert a[0] in b && b[0] in a;
      assert leq(a[0], b[0]) by { HeadLeast(a, b[0], leq); }
      assert leq(b[0], a[0]) by { HeadLeast(b, a[0], leq); }
      TailElements(a);
      TailElements(b);
      SortedTail(a, leq);
      SortedTail(b, leq);
      SortedUnique(a[1..], b[1..], leq);
    }
  }

  lemma {:induction false} TailElements<T>(a: seq<T>)
    requires a != []
    ensures multiset(a[1..]) == multiset(a) - multiset{a[0]} && a == [a[0]] + a[1..]
    ensures forall x :: x in a[1..] ==> x in a
  {
    assert a == [a[0]] + a[1..];
  }

  lemma {:induction false} SortedTail<T>(a: seq<T>, leq: Order<T>)
    requires a != [] && SortedBy(a, leq)
    ensures SortedBy(a[1..], leq)
  {
  }

  lemma {:induction false} HeadLeast<T(!new)>(a: seq<T>, x: T, leq: Order<T>)
    requires Preorder(leq) && SortedBy(a, leq) && x in a
    ensures leq(a[0], x)
  {
    var i :| 0 <= i < |a| && a[i] == x;
    assert leq(x, x);
  }

  /** Sorting two lists gives the same result exactly when they hold the same elements. */
  lemma {:induction false} SortEqualIff<T(!new)>(a: seq<T>, b: seq<T>, leq: Order<T>)
    requires Preorder(leq) && Distinguishes(a, leq)
    ensures Sort(a, leq) == Sort(b, leq) <==> multiset(a) == multiset(b)
  {
    SortSorts(a, leq);
    SortSorts(b, leq);
    if multiset(a) == multiset(b) {
      SameMembers(Sort(a, leq), a);
      SortedUnique(Sort(a, leq), Sort(b, leq), leq);
    }
  }

  // ---------------------------------------------------------------- rearrangement

  function Without<T>(xs: seq<T>, j: nat): seq<T>
    requires j < |xs|
  {
    xs[..j] + xs[j + 1..]
  }

  lemma {:induction false} WithoutElements<T>(xs: seq<T>, j: nat)
    requires j < |xs|
    ensures multiset(xs) == multiset(Without(xs, j)) + multiset{xs[j]}
  {
    assert xs == xs[..j] + [xs[j]] + xs[j + 1..];
  }

  /** The last element of one arrangement, found in the other and taken out of both. */
  lemma {:induction false} LastElsewhere<T>(a: seq<T>, b: seq<T>) returns (j: nat)
    requires multiset(a) == multiset(b) && a != []
    ensures j < |b| && b[j] == a[|a| - 1] && multiset(a[..|a| - 1]) == multiset(Without(b, j))
  {
    var n := |a| - 1;
    SameMembers(a, b);
    assert a[n] in b;
    j :| 0 <= j < |b| && b[j] == a[n];
    WithoutElements(b, j);
    WithoutElements(a, n);
    assert Without(a, n) == a[..n];
    assert multiset(a[..n]) == multiset(a) - multiset{a[n]};
    assert multiset(Without(b, j)) == multiset(b) - multiset{b[j]};
  }

  // ---------------------------------------------------------------- keys

  predicate UniqueBy<T, K(==)>(xs: seq<T>, key: T -> K) {
    forall i, j | 0 <= i < j < |xs| :: key(xs[i]) != key(xs[j])
  }

  lemma {:induction false} TwoPlaces<T>(xs: seq<T>, x: T) returns (i: nat, j: nat)
    requires multiset(xs)[x] >= 2
    ensures i < j < |xs| && xs[i] == x && xs[j] == x
  {
    assert x in multiset(xs);
    j :| 0 <= j < |xs| && xs[j] == x;
    var rest := xs[..j] + xs[j + 1..];
    assert xs == xs[..j] + [x] + xs[j + 1..];
    assert multiset(xs) == multiset(rest) + multiset{x};
    assert x in multiset(rest);
    var k :| 0 <= k < |rest| && rest[k] == x;
    i := if k < j then k else k + 1;
    if j < i {
      i, j := j, i;
    }
  }

  lemma {:induction false} CountedTwice<T>(xs: seq<T>, i: nat, j: nat)
    requires i < j < |xs| && xs[i] == xs[j]
    ensures multiset(xs)[xs[i]] >= 2
  {
    assert xs == xs[..i] + [xs[i]] + xs[i + 1..j] + [xs[j]] + xs[j + 1..];
    assert multiset(xs) == multiset(xs[..i]) + multiset{xs[i]} + multiset(xs[i + 1..j]) + multiset{xs[j]}
                           + multiset(xs[j + 1..]);
  }

  /** Keys that are unique in one arrangement are unique in every arrangement. */
  lemma {:induction false} UniquePermutes<T, K>(a: seq<T>, b: seq<T>, key: T -> K)
    requires multiset(a) == multiset(b) && UniqueBy(a, key)
    ensures UniqueBy(b, key)
  {
    SameMembers(a, b);
    forall i, j | 0 <= i < j < |b| ensures key(b[i]) != key(b[j]) {
      assert b[i] in b && b[j] in b;
      if b[i] == b[j] {
        CountedTwice(b, i, j);
        var k, l := TwoPlaces(a, b[i]);
      } else {
        var k :| 0 <= k < |a| && a[k] == b[i];
        var l :| 0 <= l < |a| && a[l] == b[j];
      }
    }
  }

  /** With unique keys, equal keys mean equal elements. */
  lemma {:induction false} KeyDetermines<T, K>(xs: seq<T>, key: T -> K, x: T, y: T)
    requires UniqueBy(xs, key) && x in xs && y in xs && key(x) == key(y)
    ensures x == y
  {
    var i :| 0 <= i < |xs| && xs[i] == x;
    var j :| 0 <= j < |xs| && xs[j] == y;
  }

  // ---------------------------------------------------------------- text

  /** The order of text: by the first character that differs, a prefix first. */
  predicate TextLeq(a: string, b: string) {
    a == [] || (b != [] && (a[0] < b[0] || (a[0] == b[0] && TextLeq(a[1..], b[1..]))))
  }

  predicate TextLess(a: string, b: string) {
    TextLeq(a, b) && a != b
  }

  /** The texts agree up to `k`, where the first ends or has the smaller character. */
  predicate LessAt(a: string, b: string, k: nat) {
    k <= |a| && k < |b| && a[..k] == b[..k] && (k == |a| || a[k] < b[k])
  }

  /** The order of texts is decided where they first differ. */
  lemma {:induction false} TextLessIff(a: string, b: string)
    ensures TextLess(a, b) <==> exists k: nat :: LessAt(a, b, k)
  {
    if a == [] || b == [] || a[0] != b[0] {
      if TextLess(a, b) {
        assert LessAt(a, b, 0);
      } else {
        forall k: nat ensures !LessAt(a, b, k) {
          if 0 < k <= |a| && k < |b| {
            assert a[..k][0] == a[0] && b[..k][0] == b[0];
          }
        }
      }
    } else {
      TextLessIff(a[1..], b[1..]);
      assert a == [a[0]] + a[1..] && b == [b[0]] + b[1..];
      forall k: nat ensures LessAt(a[1..], b[1..], k) <==> LessAt(a, b, k + 1) {
        LessAtTail(a, b, k);
      }
      assert !LessAt(a, b, 0);
      if TextLess(a, b) {
        var k: nat :| LessAt(a[1..], b[1..], k);
        assert LessAt(a, b, k + 1);
      } else {
        forall k: nat ensures !LessAt(a, b, k) {
          if k > 0 {
            assert !LessAt(a[1..], b[1..], k - 1);
          }
        }
      }
    }
  }

  lemma {:induction false} LessAtTail(a: string, b: string, k: nat)
    requires a != [] && b != [] && a[0] == b[0]
    ensures LessAt(a[1..], b[1..], k) <==> LessAt(a, b, k + 1)
  {
    if k + 1 <= |a| && k + 1 < |b| {
      assert a[..k + 1] == [a[0]] + a[1..][..k] && b[..k + 1] == [b[0]] + b[1..][..k];
      assert a[..k + 1][1..] == a[1..][..k] && b[..k + 1][1..] == b[1..][..k];
    }
  }

  lemma {:induction false} TextTotal(a: string, b: string)
    ensures TextLeq(a, b) || TextLeq(b, a)
    ensures TextLeq(a, b) && TextLeq(b, a) ==> a == b
    ensures TextLeq(a, a)
  {
    if a != [] && b != [] {
      TextTotal(a[1..], b[1..]);
      assert a == [a[0]] + a[1..] && b == [b[0]] + b[1..];
    }
    if a != [] && b == [] {
      TextTotal(a[1..], []);
    }
  }

  lemma {:induction false} TextTransitive(a: string, b: string, c: string)
    requires TextLeq(a, b) && TextLeq(b, c)
    ensures TextLeq(a, c)
  {
    if a != [] && a[0] == b[0] == c[0] {
      TextTransitive(a[1..], b[1..], c[1..]);
    }
  }

  /** Strictly smaller, then not greater: strictly smaller. */
  lemma {:induction false} TextLessTransitive(a: string, b: string, c: string)
    requires TextLess(a, b) && TextLess(b, c)
    ensures TextLess(a, c)
  {
    TextTransitive(a, b, c);
    TextTotal(a, b);
  }

  /** A common prefix does not matter. */
  lemma {:induction false} TextPrefix(p: string, a: string, b: string)
    ensures TextLess(p + a, p + b) <==> TextLess(a, b)
  {
    if p == [] {
      assert p + a == a && p + b == b;
    } else {
      TextPrefix(p[1..], a, b);
      assert (p + a)[1..] == p[1..] + a && (p + b)[1..] == p[1..] + b;
      assert p + a == [p[0]] + (p[1..] + a) && p + b == [p[0]] + (p[1..] + b);
    }
  }

  /** Between texts of one length the order is decided before anything that follows. */
  lemma {:induction false} TextSameLength(a: string, b: string, s: string, t: string)
    requires |a| == |b|
    ensures TextLess(a + s, b + t) <==> TextLess(a, b) || (a == b && TextLess(s, t))
  {
    if a == [] {
      assert a + s == s && b + t == t;
    } else {
      TextSameLength(a[1..], b[1..], s, t);
      assert (a + s)[1..] == a[1..] + s && (b + t)[1..] == b[1..] + t;
      assert a == [a[0]] + a[1..] && b == [b[0]] + b[1..];
      assert a + s == [a[0]] + (a[1..] + s) && b + t == [b[0]] + (b[1..] + t);
    }
  }
}
