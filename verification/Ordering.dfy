// Sorting by a text key, and what sortedness gives: uniqueness and contiguous prefixes.

module Ordering {

  /** Character-by-character order of text. */
  predicate Less(a: string, b: string) {
    if b == "" then false
    else if a == "" then true
    else if a[0] != b[0] then a[0] < b[0]
    else Less(a[1..], b[1..])
  }

  lemma {:induction false} LessTotal(a: string, b: string)
    ensures Less(a, b) || a == b || Less(b, a)
    ensures !(Less(a, b) && Less(b, a)) && (a == b ==> !Less(a, b))
  {
    if a != "" && b != "" && a[0] == b[0] {
      LessTotal(a[1..], b[1..]);
      assert a == [a[0]] + a[1..] && b == [b[0]] + b[1..];
    }
  }

  lemma {:induction false} LessTransitive(a: string, b: string, c: string)
    requires Less(a, b) && Less(b, c)
    ensures Less(a, c)
  {
    if a != "" && a[0] == b[0] == c[0] {
      LessTransitive(a[1..], b[1..], c[1..]);
    }
  }

  /** Text that starts with `prefix` is not below it. */
  lemma {:induction false} PrefixNotLess(x: string, prefix: string)
    requires prefix <= x
    ensures !Less(x, prefix)
  {
    if prefix != "" {
      assert prefix[1..] <= x[1..];
      PrefixNotLess(x[1..], prefix[1..]);
    }
  }

  /** Past the first text at or above `prefix` that does not start with it, none does. */
  lemma {:induction false} PrefixBlockEnds(x: string, y: string, prefix: string)
    requires !Less(x, prefix) && !(prefix <= x) && Less(x, y)
    ensures !(prefix <= y)
  {
    if x != "" && prefix[0] == x[0] && prefix <= y {
      assert prefix == [prefix[0]] + prefix[1..] && x == [x[0]] + x[1..] && y == [y[0]] + y[1..];
      assert prefix[1..] <= y[1..];
      PrefixBlockEnds(x[1..], y[1..], prefix[1..]);
    }
  }

  // --- Sorting ---------------------------------------------------------------------------

  /** The least a comparison must be for sorting to make sense: asymmetric, and "not less"
      is transitive. */
  ghost predicate WeakOrder<T(!new)>(less: (T, T) -> bool) {
    && (forall a, b | less(a, b) :: !less(b, a))
    && (forall a, b, c | !less(a, b) && !less(b, c) :: !less(a, c))
  }

  /** A stable insertion: an equal element goes in front of those after it. */
  function Insert<T>(less: (T, T) -> bool, x: T, s: seq<T>): (r: seq<T>)
    ensures multiset(r) == multiset(s) + multiset{x}
  {
    if s == [] then [x]
    else
      assert s == [s[0]] + s[1..];
      if less(s[0], x) then [s[0]] + Insert(less, x, s[1..]) else [x] + s
  }

  function Sort<T>(less: (T, T) -> bool, s: seq<T>): (r: seq<T>)
    ensures multiset(r) == multiset(s)
  {
    if s == [] then []
    else
      assert s == [s[0]] + s[1..];
      Insert(less, s[0], Sort(less, s[1..]))
  }

  lemma SameElements<T>(a: seq<T>, b: seq<T>)
    requires multiset(a) == multiset(b)
    ensures |a| == |b| && forall x :: x in a <==> x in b
  {
    assert |multiset(a)| == |a| && |multiset(b)| == |b|;
    forall x ensures x in a <==> x in b {
      assert x in a <==> x in multiset(a);
    }
  }

  lemma InsertMembers<T>(less: (T, T) -> bool, x: T, s: seq<T>)
    ensures forall y :: y in Insert(less, x, s) <==> y == x || y in s
  {
    forall y ensures y in Insert(less, x, s) <==> y == x || y in s {
      assert y in Insert(less, x, s) <==> y in multiset(Insert(less, x, s));
      assert y in s <==> y in multiset(s);
    }
  }

  /** No element is less than one before it. */
  ghost predicate InOrder<T(!new)>(less: (T, T) -> bool, s: seq<T>) {
    forall i, j | 0 <= i < j < |s| :: !less(s[j], s[i])
  }

  lemma {:induction false} InsertInOrder<T(!new)>(less: (T, T) -> bool, x: T, s: seq<T>)
    requires WeakOrder(less) && InOrder(less, s)
    ensures InOrder(less, Insert(less, x, s))
  {
    if s != [] {
      if less(s[0], x) {
        var rest := Insert(less, x, s[1..]);
        InsertInOrder(less, x, s[1..]);
        InsertMembers(less, x, s[1..]);
        forall j | 0 <= j < |rest| ensures !less(rest[j], s[0]) {
          assert rest[j] in rest;
        }
      } else {
        forall j | 0 <= j < |s| ensures !less(s[j], x) {
        }
      }
    }
  }

  lemma {:induction false} SortInOrder<T(!new)>(less: (T, T) -> bool, s: seq<T>)
    requires WeakOrder(less)
    ensures InOrder(less, Sort(less, s))
  {
    if s != [] {
      SortInOrder(less, s[1..]);
      InsertInOrder(less, s[0], Sort(less, s[1..]));
    }
  }

  /** Each element is less than those after it. */
  ghost predicate Strict<T(!new)>(less: (T, T) -> bool, s: seq<T>) {
    forall i, j | 0 <= i < j < |s| :: less(s[i], s[j])
  }

  ghost predicate Comparable<T(!new)>(less: (T, T) -> bool, s: seq<T>) {
    forall i, j | 0 <= i < j < |s| :: less(s[i], s[j]) || less(s[j], s[i])
  }

  lemma PrependStrict<T(!new)>(less: (T, T) -> bool, x: T, s: seq<T>)
    requires Strict(less, s) && forall y | y in s :: less(x, y)
    ensures Strict(less, [x] + s)
  {
    var r := [x] + s;
    forall i, j | 0 <= i < j < |r| ensures less(r[i], r[j]) {
      assert r[j] == s[j - 1];
      if i == 0 { assert s[j - 1] in s; }
    }
  }

  lemma {:induction false} InsertStrict<T(!new)>(less: (T, T) -> bool, x: T, s: seq<T>)
    requires WeakOrder(less) && Strict(less, s) && forall y | y in s :: less(x, y) || less(y, x)
    ensures Strict(less, Insert(less, x, s))
  {
    if s != [] {
      assert s[0] in s;
      if less(s[0], x) {
        InsertStrict(less, x, s[1..]);
        InsertMembers(less, x, s[1..]);
        PrependStrict(less, s[0], Insert(less, x, s[1..]));
      } else {
        forall y | y in s ensures less(x, y) {
          assert y == s[0] || !less(y, s[0]);
        }
        PrependStrict(less, x, s);
      }
    }
  }

  /** Sorting elements no two of which are equal leaves none equal to its neighbour. */
  lemma {:induction false} SortStrict<T(!new)>(less: (T, T) -> bool, s: seq<T>)
    requires WeakOrder(less) && Comparable(less, s)
    ensures Strict(less, Sort(less, s))
  {
    if s != [] {
      SortStrict(less, s[1..]);
      SameElements(Sort(less, s[1..]), s[1..]);
      forall y | y in Sort(less, s[1..]) ensures less(s[0], y) || less(y, s[0]) {
        var k :| 0 <= k < |s[1..]| && s[1..][k] == y;
        assert s[k + 1] == y;
      }
      InsertStrict(less, s[0], Sort(less, s[1..]));
    }
  }

  function Below(): (int, int) -> bool { (a, b) => a < b }

  ghost predicate Ascending(s: seq<int>) { forall i, j | 0 <= i < j < |s| :: s[i] < s[j] }

  // --- Sorting by a text key --------------------------------------------------------------

  ghost predicate Sorted<T(!new)>(key: T -> string, s: seq<T>) {
    forall i, j | 0 <= i < j < |s| :: Less(key(s[i]), key(s[j]))
  }

  ghost predicate DistinctKeys<T(!new)>(key: T -> string, s: seq<T>) {
    forall i, j | 0 <= i < j < |s| :: key(s[i]) != key(s[j])
  }

  function ByKey<T>(key: T -> string): (T, T) -> bool { (a, b) => Less(key(a), key(b)) }

  lemma ByKeyOrders<T(!new)>(key: T -> string)
    ensures WeakOrder(ByKey(key))
  {
    forall a, b, c: T | ByKey(key)(a, b) || (!ByKey(key)(a, b) && !ByKey(key)(b, c))
      ensures ByKey(key)(a, b) ==> !ByKey(key)(b, a)
      ensures !ByKey(key)(a, b) && !ByKey(key)(b, c) ==> !ByKey(key)(a, c)
    {
      NotLessTransitive(key(a), key(b), key(c));
    }
  }

  lemma NotLessTransitive(a: string, b: string, c: string)
    ensures Less(a, b) ==> !Less(b, a)
    ensures !Less(a, b) && !Less(b, c) ==> !Less(a, c)
  {
    LessTotal(a, b);
    LessTotal(b, c);
    LessTotal(a, c);
    if Less(b, a) && Less(a, c) { LessTransitive(b, a, c); }
    if Less(a, c) && Less(c, b) { LessTransitive(a, c, b); }
  }

  /** Sorting distinct keys gives a strictly sorted rearrangement. */
  lemma SortSorts<T(!new)>(key: T -> string, s: seq<T>)
    requires DistinctKeys(key, s)
    ensures Sorted(key, Sort(ByKey(key), s))
  {
    ByKeyOrders(key);
    forall i, j | 0 <= i < j < |s| ensures ByKey(key)(s[i], s[j]) || ByKey(key)(s[j], s[i]) {
      LessTotal(key(s[i]), key(s[j]));
    }
    SortStrict(ByKey(key), s);
    var r := Sort(ByKey(key), s);
    forall i, j | 0 <= i < j < |r| ensures Less(key(r[i]), key(r[j])) {
      assert ByKey(key)(r[i], r[j]);
    }
  }

  lemma NonemptyFrom<T(!new)>(a: seq<T>, b: seq<T>)
    requires a != [] && forall x | x in a :: x in b
    ensures b != []
  {
    assert a[0] in b;
  }

  /** A strictly sorted sequence is determined by what it contains. */
  lemma {:induction false} StrictUnique<T(!new)>(less: (T, T) -> bool, a: seq<T>, b: seq<T>)
    requires WeakOrder(less) && Strict(less, a) && Strict(less, b) && forall x :: x in a <==> x in b
    ensures a == b
  {
    if b != [] { NonemptyFrom(b, a); }
    if a != [] {
      NonemptyFrom(a, b);
      assert a[0] in b && b[0] in a;
      HeadsAgree(less, a, b);
      forall x ensures x in a[1..] <==> x in b[1..] {
        TailHolds(less, a, x);
        TailHolds(less, b, x);
      }
      StrictUnique(less, a[1..], b[1..]);
      assert a == [a[0]] + a[1..] && b == [b[0]] + b[1..];
    }
  }

  lemma HeadsAgree<T(!new)>(less: (T, T) -> bool, a: seq<T>, b: seq<T>)
    requires WeakOrder(less) && Strict(less, a) && Strict(less, b) && a != [] && b != [] && a[0] in b && b[0] in a
    ensures a[0] == b[0]
  {
    var i :| 0 <= i < |b| && b[i] == a[0];
    var j :| 0 <= j < |a| && a[j] == b[0];
    assert i > 0 ==> less(b[0], b[i]);
    assert j > 0 ==> less(a[0], a[j]);
  }

  lemma TailHolds<T(!new)>(less: (T, T) -> bool, a: seq<T>, x: T)
    requires WeakOrder(less) && Strict(less, a) && a != []
    ensures x in a[1..] <==> x in a && x != a[0]
  {
    if x in a[1..] {
      var i :| 0 <= i < |a[1..]| && a[1..][i] == x;
      assert a[i + 1] == x && less(a[0], x);
    }
  }

  lemma SortedUnique<T(!new)>(key: T -> string, a: seq<T>, b: seq<T>)
    requires Sorted(key, a) && Sorted(key, b) && forall x :: x in a <==> x in b
    ensures a == b
  {
    ByKeyOrders(key);
    assert Strict(ByKey(key), a) && Strict(ByKey(key), b);
    StrictUnique(ByKey(key), a, b);
  }

  lemma AscendingUnique(a: seq<int>, b: seq<int>)
    requires Ascending(a) && Ascending(b) && forall x: int :: x in a <==> x in b
    ensures a == b
  {
    assert WeakOrder(Below()) && Strict(Below(), a) && Strict(Below(), b);
    forall x: int ensures x in a <==> x in b { }
    StrictUnique(Below(), a, b);
  }

  /** The first position at or above `prefix`: sort.Search by bisection. */
  method LowerBound(codes: seq<string>, prefix: string) returns (k: nat)
    requires Sorted((c: string) => c, codes)
    ensures k <= |codes|
    ensures forall i | 0 <= i < k :: Less(codes[i], prefix)
    ensures forall i | k <= i < |codes| :: !Less(codes[i], prefix)
  {
    var lo, hi := 0, |codes|;
    while lo < hi
      invariant 0 <= lo <= hi <= |codes|
      invariant forall i | 0 <= i < lo :: Less(codes[i], prefix)
      invariant forall i | hi <= i < |codes| :: !Less(codes[i], prefix)
    {
      var mid := (lo + hi) / 2;
      if Less(codes[mid], prefix) {
        forall i | 0 <= i < mid ensures Less(codes[i], prefix) {
          assert ((c: string) => c)(codes[i]) == codes[i];
          LessTransitive(codes[i], codes[mid], prefix);
        }
        lo := mid + 1;
      } else {
        forall i | mid < i < |codes| ensures !Less(codes[i], prefix) {
          if Less(codes[i], prefix) { LessTransitive(codes[mid], codes[i], prefix); }
        }
        hi := mid;
      }
    }
    k := lo;
  }

  /** In a sorted list the texts with a prefix are those from its lower bound up to the
      first that lacks it. */
  lemma PrefixesContiguous(codes: seq<string>, prefix: string, start: nat, end: nat)
    requires Sorted((c: string) => c, codes) && start <= end < |codes|
    requires forall i | start <= i < |codes| :: !Less(codes[i], prefix)
    requires !(prefix <= codes[end])
    ensures forall i | end <= i < |codes| :: !(prefix <= codes[i])
  {
    forall i | end < i < |codes| ensures !(prefix <= codes[i]) {
      PrefixBlockEnds(codes[end], codes[i], prefix);
    }
  }
}
