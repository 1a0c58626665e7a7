/** `sorted(items, key=...)` for keys that are pairs ordered lexicographically. */
module Sorting {
  import opened Basics

  type Key = (int, int)

  predicate Before(a: Key, b: Key) { a.0 < b.0 || (a.0 == b.0 && a.1 <= b.1) }

  function Insert<T>(x: T, s: seq<T>, key: T -> Key): seq<T> {
    if s == [] || Before(key(x), key(s[0])) then [x] + s else [s[0]] + Insert(x, s[1..], key)
  }

  function Sort<T>(s: seq<T>, key: T -> Key): seq<T> {
    if s == [] then [] else Insert(s[0], Sort(s[1..], key), key)
  }

  ghost predicate Ordered<T>(s: seq<T>, key: T -> Key) {
    forall i, j :: 0 <= i < j < |s| ==> Before(key(s[i]), key(s[j]))
  }

  /** No two different elements share a key. */
  ghost predicate KeyIdentifies<T>(s: seq<T>, key: T -> Key) {
    forall i, j :: 0 <= i < |s| && 0 <= j < |s| && key(s[i]) == key(s[j]) ==> s[i] == s[j]
  }

  lemma {:induction false} InsertPermutes<T>(x: T, s: seq<T>, key: T -> Key)
    ensures multiset(Insert(x, s, key)) == multiset(s) + multiset{x}
    decreases |s|
  {
    if s != [] && !Before(key(x), key(s[0])) {
      InsertPermutes(x, s[1..], key);
      assert s == [s[0]] + s[1..];
    }
  }

  lemma {:induction false} SortPermutes<T>(s: seq<T>, key: T -> Key)
    ensures multiset(Sort(s, key)) == multiset(s)
    decreases |s|
  {
    if s == [] {
    } else {
      SortPermutes(s[1..], key);
      InsertPermutes(s[0], Sort(s[1..], key), key);
      assert s == [s[0]] + s[1..];
    }
  }

  lemma {:induction false} SameElements<T>(s: seq<T>, t: seq<T>, x: T)
    requires multiset(s) == multiset(t)
    ensures x in s <==> x in t
    ensures |s| == |t|
  {
    assert x in s <==> x in multiset(s);
    assert x in t <==> x in multiset(t);
    assert |s| == |multiset(s)| && |t| == |multiset(t)|;
  }

  lemma {:induction false} InsertOrders<T>(x: T, s: seq<T>, key: T -> Key)
    requires Ordered(s, key)
    ensures Ordered(Insert(x, s, key), key)
    decreases |s|
  {
    if s != [] && !Before(key(x), key(s[0])) {
      var rest := Insert(x, s[1..], key);
      InsertOrders(x, s[1..], key);
      InsertPermutes(x, s[1..], key);
      forall i | 0 <= i < |rest|
        ensures Before(key(s[0]), key(rest[i]))
      {
        assert rest[i] in multiset(rest);
        assert rest[i] == x || rest[i] in s[1..];
      }
    }
  }

  lemma {:induction false} SortOrders<T>(s: seq<T>, key: T -> Key)
    ensures Ordered(Sort(s, key), key)
    decreases |s|
  {
    if s == [] {
    } else {
      SortOrders(s[1..], key);
      InsertOrders(s[0], Sort(s[1..], key), key);
    }
  }

  /** The same elements in order start with the same one. */
  lemma {:induction false} SameFirst<T>(a: seq<T>, b: seq<T>, key: T -> Key)
    requires Ordered(a, key) && Ordered(b, key) && multiset(a) == multiset(b) && KeyIdentifies(a, key)
    requires a != [] && b != []
    ensures a[0] == b[0]
  {
    SameElements(a, b, b[0]);
    SameElements(a, b, a[0]);
    var i :| 0 <= i < |a| && a[i] == b[0];
    var j :| 0 <= j < |b| && b[j] == a[0];
    assert Before(key(a[0]), key(a[i])) || i == 0;
    assert Before(key(b[0]), key(b[j])) || j == 0;
  }

  lemma {:induction false} TailMultiset<T>(a: seq<T>)
    requires a != []
    ensures multiset(a[1..]) == multiset(a) - multiset{a[0]}
  {
    assert a == [a[0]] + a[1..];
  }

  /** Keys that identify leave one way to order the same elements. */
  lemma {:induction false} OrderIsUnique<T>(a: seq<T>, b: seq<T>, key: T -> Key)
    requires Ordered(a, key) && Ordered(b, key) && multiset(a) == multiset(b) && KeyIdentifies(a, key)
    ensures a == b
    decreases |a|
  {
    assert |a| == |multiset(a)| && |b| == |multiset(b)|;
    if a == [] {
    } else {
      SameFirst(a, b, key);
      TailMultiset(a);
      TailMultiset(b);
      OrderIsUnique(a[1..], b[1..], key);
      assert a == [a[0]] + a[1..] && b == [b[0]] + b[1..];
    }
  }

  lemma {:induction false} KeyIdentifiesPermute<T>(a: seq<T>, b: seq<T>, key: T -> Key)
    requires multiset(a) == multiset(b) && KeyIdentifies(a, key)
    ensures KeyIdentifies(b, key)
  {
    forall i, j | 0 <= i < |b| && 0 <= j < |b| && key(b[i]) == key(b[j])
      ensures b[i] == b[j]
    {
      SameElements(a, b, b[i]);
      SameElements(a, b, b[j]);
    }
  }

  /** Sorting forgets the input order when no two different elements share a key. */
  lemma {:induction false} SortIsCanonical<T>(a: seq<T>, b: seq<T>, key: T -> Key)
    requires multiset(a) == multiset(b) && KeyIdentifies(a, key)
    ensures Sort(a, key) == Sort(b, key)
  {
    SortPermutes(a, key);
    SortPermutes(b, key);
    SortOrders(a, key);
    SortOrders(b, key);
    KeyIdentifiesPermute(a, Sort(a, key), key);
    OrderIsUnique(Sort(a, key), Sort(b, key), key);
  }

  lemma {:induction false} DistinctPermutes<T>(a: seq<T>, b: seq<T>)
    requires multiset(a) == multiset(b) && Distinct(a)
    ensures Distinct(b)
  {
    DistinctCount(a);
    forall x { SameElements(a, b, x); }
    assert Elements(a) == Elements(b);
    assert |a| == |multiset(a)| && |b| == |multiset(b)|;
    CountDistinct(b);
  }
}
