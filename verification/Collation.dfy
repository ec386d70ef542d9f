/** Sorting by a total order on strings, as the scripts do with `toSorted`. */
module Collation {
  import opened Sequences

  type Leq = (string, string) -> bool

  ghost predicate TotalOrder(leq: Leq) {
    && (forall a, b :: leq(a, b) || leq(b, a))
    && (forall a, b :: leq(a, b) && leq(b, a) ==> a == b)
    && (forall a, b, c :: leq(a, b) && leq(b, c) ==> leq(a, c))
  }

  /** A stable insertion sort by a key of the elements. */
  function Insert<T>(x: T, s: seq<T>, key: T -> string, leq: Leq): seq<T> {
    if s == [] || leq(key(x), key(s[0])) then [x] + s else [s[0]] + Insert(x, s[1..], key, leq)
  }

  function Sort<T>(s: seq<T>, key: T -> string, leq: Leq): seq<T> {
    if s == [] then [] else Insert(s[0], Sort(s[1..], key, leq), key, leq)
  }

  ghost predicate Sorted<T>(s: seq<T>, key: T -> string, leq: Leq) {
    forall i, j :: 0 <= i < j < |s| ==> leq(key(s[i]), key(s[j]))
  }

  lemma {:induction false} InsertAdds<T>(x: T, s: seq<T>, key: T -> string, leq: Leq)
    ensures multiset(Insert(x, s, key, leq)) == multiset(s) + multiset{x}
    ensures forall y :: y in Insert(x, s, key, leq) ==> y == x || y in s
  {
    if s != [] {
      assert s == [s[0]] + s[1..];
      InsertAdds(x, s[1..], key, leq);
    }
  }

  lemma SortedCons<T>(x: T, s: seq<T>, key: T -> string, leq: Leq)
    requires Sorted(s, key, leq) && forall y :: y in s ==> leq(key(x), key(y))
    ensures Sorted([x] + s, key, leq)
  {
  }

  lemma {:induction false} InsertSorted<T>(x: T, s: seq<T>, key: T -> string, leq: Leq)
    requires TotalOrder(leq) && Sorted(s, key, leq)
    ensures Sorted(Insert(x, s, key, leq), key, leq)
    ensures multiset(Insert(x, s, key, leq)) == multiset(s) + multiset{x}
  {
    InsertAdds(x, s, key, leq);
    if s != [] {
      if leq(key(x), key(s[0])) {
        forall j | 0 <= j < |s| ensures leq(key(x), key(s[j])) { assert leq(key(s[0]), key(s[j])); }
      } else {
        InsertSorted(x, s[1..], key, leq);
        InsertAdds(x, s[1..], key, leq);
        SortedCons(s[0], Insert(x, s[1..], key, leq), key, leq);
      }
    }
  }

  lemma {:induction false} SortSorts<T>(s: seq<T>, key: T -> string, leq: Leq)
    requires TotalOrder(leq)
    ensures Sorted(Sort(s, key, leq), key, leq)
    ensures multiset(Sort(s, key, leq)) == multiset(s)
  {
    if s != [] {
      SortSorts(s[1..], key, leq);
      InsertSorted(s[0], Sort(s[1..], key, leq), key, leq);
      assert s == [s[0]] + s[1..];
    }
  }

  /** Sorting leaves a sorted sequence as it is. */
  lemma {:induction false} SortOfSorted<T>(s: seq<T>, key: T -> string, leq: Leq)
    requires TotalOrder(leq) && Sorted(s, key, leq)
    ensures Sort(s, key, leq) == s
  {
    if s != [] { SortOfSorted(s[1..], key, leq); }
  }

  /** Membership and absence of duplicates are kept. */
  lemma SortKeeps<T>(s: seq<T>, key: T -> string, leq: Leq)
    requires TotalOrder(leq)
    ensures forall x :: x in Sort(s, key, leq) <==> x in s
    ensures NoDup(s) ==> NoDup(Sort(s, key, leq))
    ensures |Sort(s, key, leq)| == |s|
  {
    var r := Sort(s, key, leq);
    SortSorts(s, key, leq);
    assert forall x :: x in r <==> x in multiset(r);
    assert |multiset(r)| == |multiset(s)|;
    if NoDup(s) {
      forall i, j | 0 <= i < j < |r| ensures r[i] != r[j] {
        if r[i] == r[j] {
          CountTwice(r, i, j);
          NoDupCount(s, r[i]);
        }
      }
    }
  }

  lemma CountTwice<T>(s: seq<T>, i: nat, j: nat)
    requires i < j < |s| && s[i] == s[j]
    ensures multiset(s)[s[i]] >= 2
  {
    assert s == s[..j] + s[j..];
    assert s[..j][i] == s[i] && s[j..][0] == s[i];
    assert s[i] in multiset(s[..j]) && s[i] in multiset(s[j..]);
  }

  lemma {:induction false} NoDupCount<T>(s: seq<T>, x: T)
    requires NoDup(s)
    ensures multiset(s)[x] <= 1
  {
    if s != [] {
      assert s == [s[0]] + s[1..];
      NoDupCount(s[1..], x);
      if s[0] == x { assert x !in s[1..]; }
    }
  }

  function Id(s: string): string { s }

  /** A sorted list of strings without duplicates is determined by its members. */
  lemma {:induction false} SortedUnique(a: seq<string>, b: seq<string>, leq: Leq)
    requires TotalOrder(leq) && Sorted(a, Id, leq) && Sorted(b, Id, leq) && NoDup(a) && NoDup(b)
    requires forall x :: x in a <==> x in b
    ensures a == b
  {
    if a != [] { assert a[0] in b; }
    if b != [] { assert b[0] in a; }
    if a != [] {
      var i :| 0 <= i < |b| && b[i] == a[0];
      var j :| 0 <= j < |a| && a[j] == b[0];
      assert Id(a[0]) == a[0] && Id(b[0]) == b[0] && Id(a[j]) == a[j] && Id(b[i]) == b[i];
      assert a[0] == b[0];
      forall x ensures x in a[1..] <==> x in b[1..] {
        assert x in a <==> x == a[0] || x in a[1..];
        assert x in b <==> x == b[0] || x in b[1..];
      }
      SortedUnique(a[1..], b[1..], leq);
      assert a == [a[0]] + a[1..] && b == [b[0]] + b[1..];
    }
  }

  /** Two orders of the same distinct strings sort to the same list. */
  lemma SortSame(a: seq<string>, b: seq<string>, leq: Leq)
    requires TotalOrder(leq) && NoDup(a) && NoDup(b)
    requires forall x :: x in a <==> x in b
    ensures Sort(a, Id, leq) == Sort(b, Id, leq)
  {
    SortSorts(a, Id, leq);
    SortSorts(b, Id, leq);
    SortKeeps(a, Id, leq);
    SortKeeps(b, Id, leq);
    SortedUnique(Sort(a, Id, leq), Sort(b, Id, leq), leq);
  }
}
