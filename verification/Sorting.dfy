/**
 What the model needs of Go's `sort` package: some sorted permutation exists, and when the order
 separates the elements there is only one.  Strings compare code point by code point, which is
 also the byte order of their UTF-8 forms.
 */
module Sorting {

  ghost predicate Sorted<T(!new)>(le: (T, T) -> bool, s: seq<T>) {
    forall i, j :: 0 <= i < j < |s| ==> le(s[i], s[j])
  }

  ghost predicate Preorder<T(!new)>(le: (T, T) -> bool) {
    && (forall x, y :: le(x, y) || le(y, x))
    && (forall x, y, z :: le(x, y) && le(y, z) ==> le(x, z))
  }

  /** No two different elements of `s` are equal in the order. */
  ghost predicate Separates<T(!new)>(le: (T, T) -> bool, s: seq<T>) {
    forall x, y :: x in s && y in s && le(x, y) && le(y, x) ==> x == y
  }

  ghost predicate SortOf<T(!new)>(le: (T, T) -> bool, s: seq<T>, r: seq<T>) {
    Sorted(le, r) && multiset(r) == multiset(s)
  }

  lemma {:induction false} SameMembers<T>(s: seq<T>, r: seq<T>, x: T)
    requires multiset(r) == multiset(s)
    ensures x in s <==> x in r
  {
    assert x in multiset(s) <==> x in s;
    assert x in multiset(r) <==> x in r;
  }

  lemma {:induction false} SameHead<T(!new)>(le: (T, T) -> bool, s: seq<T>, r: seq<T>)
    requires Sorted(le, s) && Sorted(le, r) && multiset(s) == multiset(r) && Separates(le, s)
    requires s != [] && r != []
    ensures s[0] == r[0]
  {
    SameMembers(r, s, s[0]);
    SameMembers(r, s, r[0]);
    var k :| 0 <= k < |r| && r[k] == s[0];
    var m :| 0 <= m < |s| && s[m] == r[0];
    if k != 0 && m != 0 {
      assert le(s[0], s[m]) && le(r[0], r[k]);
    }
  }

  lemma {:induction false} TailMembers<T>(s: seq<T>)
    requires s != []
    ensures multiset(s[1..]) == multiset(s) - multiset{s[0]}
  {
    assert s == [s[0]] + s[1..];
  }

  /** Two sorted arrangements of one multiset are the same sequence. */
  lemma {:induction false} SortedUnique<T(!new)>(le: (T, T) -> bool, s: seq<T>, r: seq<T>)
    requires Sorted(le, s) && Sorted(le, r) && multiset(s) == multiset(r) && Separates(le, s)
    ensures s == r
  {
    assert |multiset(s)| == |s| && |multiset(r)| == |r|;
    if s != [] {
      SameHead(le, s, r);
      TailMembers(s);
      TailMembers(r);
      SortedUnique(le, s[1..], r[1..]);
      assert s == [s[0]] + s[1..] && r == [r[0]] + r[1..];
    }
  }

  /** Where `x` goes in a sorted sequence: after everything not above it. */
  method Place<T(!new)>(le: (T, T) -> bool, s: seq<T>, x: T) returns (k: nat)
    requires Preorder(le) && Sorted(le, s)
    ensures k <= |s|
    ensures forall i :: 0 <= i < k ==> le(s[i], x)
    ensures forall i :: k <= i < |s| ==> le(x, s[i])
  {
    k := |s|;
    while k > 0 && !le(s[k - 1], x)
      invariant k <= |s|
      invariant forall i :: k <= i < |s| ==> le(x, s[i])
    {
      k := k - 1;
    }
    if k > 0 {
      assert forall i :: 0 <= i < k - 1 ==> le(s[i], s[k - 1]);
    }
  }

  lemma {:induction false} Inserted<T(!new)>(le: (T, T) -> bool, s: seq<T>, x: T, k: nat)
    requires Sorted(le, s) && k <= |s|
    requires forall i :: 0 <= i < k ==> le(s[i], x)
    requires forall i :: k <= i < |s| ==> le(x, s[i])
    ensures Sorted(le, s[..k] + [x] + s[k..])
    ensures multiset(s[..k] + [x] + s[k..]) == multiset(s) + multiset{x}
  {
    var r := s[..k] + [x] + s[k..];
    assert s == s[..k] + s[k..];
    forall i, j | 0 <= i < j < |r| ensures le(r[i], r[j]) {
      if i != k && j != k {
        var p, q := if i < k then i else i - 1, if j < k then j else j - 1;
        assert le(s[p], s[q]);
      }
    }
  }

  lemma {:induction false} PlaceExists<T(!new)>(le: (T, T) -> bool, s: seq<T>, x: T) returns (k: nat)
    requires Preorder(le) && Sorted(le, s)
    ensures k <= |s|
    ensures forall i :: 0 <= i < k ==> le(s[i], x)
    ensures forall i :: k <= i < |s| ==> le(x, s[i])
  {
    if s == [] || le(s[|s| - 1], x) {
      k := |s|;
      assert forall i :: 0 <= i < |s| - 1 ==> le(s[i], s[|s| - 1]);
    } else {
      var n := |s| - 1;
      assert forall i, j :: 0 <= i < j < n ==> le(s[..n][i], s[..n][j]);
      k := PlaceExists(le, s[..n], x);
      assert forall i :: 0 <= i < n ==> s[..n][i] == s[i];
    }
  }

  /** Every sequence has a sorted arrangement. */
  lemma {:induction false} SortExists<T(!new)>(le: (T, T) -> bool, s: seq<T>) returns (r: seq<T>)
    requires Preorder(le)
    ensures SortOf(le, s, r)
  {
    if s == [] {
      r := [];
    } else {
      var n := |s| - 1;
      var init := SortExists(le, s[..n]);
      var k := PlaceExists(le, init, s[n]);
      Inserted(le, init, s[n], k);
      assert s == s[..n] + [s[n]];
      r := init[..k] + [s[n]] + init[k..];
    }
  }

  /** One stable sort; callers rely on nothing but its contract. */
  method Sort<T(!new)>(le: (T, T) -> bool, s: seq<T>) returns (r: seq<T>)
    requires Preorder(le)
    ensures SortOf(le, s, r)
  {
    r := [];
    for n := 0 to |s|
      invariant SortOf(le, s[..n], r)
    {
      var k := Place(le, r, s[n]);
      Inserted(le, r, s[n], k);
      assert s[..n + 1] == s[..n] + [s[n]];
      r := r[..k] + [s[n]] + r[k..];
    }
    assert s[..|s|] == s;
  }

  // -------------------------------------------------------------- strings

  predicate StringLe(a: string, b: string) {
    a == [] || (b != [] && (a[0] < b[0] || (a[0] == b[0] && StringLe(a[1..], b[1..]))))
  }

  lemma {:induction false} StringTotal(a: string, b: string)
    ensures StringLe(a, b) || StringLe(b, a)
    ensures StringLe(a, b) && StringLe(b, a) ==> a == b
  {
    if a != [] && b != [] && a[0] == b[0] {
      StringTotal(a[1..], b[1..]);
      assert a == [a[0]] + a[1..] && b == [b[0]] + b[1..];
    }
  }

  lemma {:induction false} StringTransitive(a: string, b: string, c: string)
    requires StringLe(a, b) && StringLe(b, c)
    ensures StringLe(a, c)
  {
    if a != [] && a[0] == b[0] && b[0] == c[0] {
      StringTransitive(a[1..], b[1..], c[1..]);
    }
  }

  /** The order of a dictionary: at the first rune that differs the smaller one comes first, and a
      prefix comes before what it begins. */
  predicate NotAfter(a: string, b: string) {
    exists k :: 0 <= k <= |a| && k <= |b| && a[..k] == b[..k] && (k == |a| || (k < |b| && a[k] < b[k]))
  }

  lemma {:induction false} FirstShared(a: string, b: string, k: nat)
    requires 0 < k <= |a| && k <= |b| && a[..k] == b[..k]
    ensures a[0] == b[0]
  {
    assert a[..k][0] == b[..k][0];
  }

  lemma {:induction false} StringLeIsDictionary(a: string, b: string)
    ensures StringLe(a, b) <==> NotAfter(a, b)
  {
    if a == [] {
      assert a[..0] == b[..0];
    } else if b != [] && a[0] == b[0] {
      StringLeIsDictionary(a[1..], b[1..]);
      if StringLe(a, b) {
        var k :| 0 <= k <= |a[1..]| && k <= |b[1..]| && a[1..][..k] == b[1..][..k]
          && (k == |a[1..]| || (k < |b[1..]| && a[1..][k] < b[1..][k]));
        assert a[..k + 1] == [a[0]] + a[1..][..k] && b[..k + 1] == [b[0]] + b[1..][..k];
      }
      if NotAfter(a, b) {
        var k :| 0 <= k <= |a| && k <= |b| && a[..k] == b[..k] && (k == |a| || (k < |b| && a[k] < b[k]));
        assert k > 0;
        assert a[1..][..k - 1] == a[..k][1..] && b[1..][..k - 1] == b[..k][1..];
      }
    } else if b != [] {
      assert a[..0] == b[..0];
      if NotAfter(a, b) {
        var k :| 0 <= k <= |a| && k <= |b| && a[..k] == b[..k] && (k == |a| || (k < |b| && a[k] < b[k]));
        if k > 0 { FirstShared(a, b, k); }
      }
    }
  }

  /** Code point order is a total order on strings. */
  lemma {:induction false} StringOrder()
    ensures Preorder(StringLe)
    ensures forall s: seq<string> :: Separates(StringLe, s)
  {
    forall x, y ensures StringLe(x, y) || StringLe(y, x) { StringTotal(x, y); }
    forall x, y, z | StringLe(x, y) && StringLe(y, z) ensures StringLe(x, z) {
      StringTransitive(x, y, z);
    }
    forall s: seq<string>, x, y | x in s && y in s && StringLe(x, y) && StringLe(y, x) ensures x == y {
      StringTotal(x, y);
    }
  }
}
