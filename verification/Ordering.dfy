/** Strings in byte order, and sorting, whatever order the input came in. */
module Ordering {

  predicate Less(a: string, b: string) {
    b != [] && (a == [] || a[0] < b[0] || (a[0] == b[0] && Less(a[1..], b[1..])))
  }

  lemma {:induction false} LessIsStrict(a: string, b: string)
    ensures !(Less(a, b) && Less(b, a)) && !Less(a, a)
    decreases |a|
  {
    if a != [] { LessIsStrict(a[1..], if b == [] then [] else b[1..]); }
  }

  lemma {:induction false} LessIsTotal(a: string, b: string)
    ensures a == b || Less(a, b) || Less(b, a)
    decreases |a|
  {
    if a != [] && b != [] {
      LessIsTotal(a[1..], b[1..]);
      assert a == [a[0]] + a[1..] && b == [b[0]] + b[1..];
    }
  }

  lemma {:induction false} LessIsTransitive(a: string, b: string, c: string)
    requires Less(a, b) && Less(b, c)
    ensures Less(a, c)
    decreases |a|
  {
    if a != [] && a[0] == b[0] == c[0] { LessIsTransitive(a[1..], b[1..], c[1..]); }
  }

  // ---------- Sorting ----------

  ghost predicate StrictOrder<T(!new)>(less: (T, T) -> bool) {
    (forall x, y :: less(x, y) ==> !less(y, x)) && (forall x, y, z :: less(x, y) && less(y, z) ==> less(x, z))
    && forall x, y, z :: less(x, y) ==> less(x, z) || less(z, y)
  }

  ghost predicate Ascending<T>(s: seq<T>, less: (T, T) -> bool) {
    forall i, j :: 0 <= i < j < |s| ==> !less(s[j], s[i])
  }

  /** Only equal elements are unordered. */
  ghost predicate Separates<T>(s: seq<T>, less: (T, T) -> bool) {
    forall x, y :: x in s && y in s && x != y ==> less(x, y) || less(y, x)
  }

  function Insert<T>(x: T, s: seq<T>, less: (T, T) -> bool): seq<T> {
    if s == [] || !less(s[0], x) then [x] + s else [s[0]] + Insert(x, s[1..], less)
  }

  function Sort<T>(s: seq<T>, less: (T, T) -> bool): seq<T> {
    if s == [] then [] else Insert(s[0], Sort(s[1..], less), less)
  }

  lemma {:induction false} InsertKeeps<T>(x: T, s: seq<T>, less: (T, T) -> bool)
    ensures multiset(Insert(x, s, less)) == multiset(s) + multiset{x}
  {
    if s != [] && less(s[0], x) {
      InsertKeeps(x, s[1..], less);
      assert s == [s[0]] + s[1..];
    }
  }

  lemma PutFirst<T(!new)>(x: T, s: seq<T>, less: (T, T) -> bool)
    requires Ascending(s, less) && forall y :: y in s ==> !less(y, x)
    ensures Ascending([x] + s, less)
  {
    var t := [x] + s;
    forall i, j | 0 <= i < j < |t| ensures !less(t[j], t[i]) {
      assert t[j] == s[j - 1];
      if i > 0 { assert t[i] == s[i - 1]; }
    }
  }

  lemma NoneBelow<T(!new)>(x: T, s: seq<T>, less: (T, T) -> bool)
    requires StrictOrder(less) && Ascending(s, less) && s != [] && !less(s[0], x)
    ensures forall y :: y in s ==> !less(y, x)
  {
    var first := s[0];
    forall y | y in s ensures !less(y, x) {
      HeadFirst(s, less, y);
      assert less(y, x) ==> less(y, first) || less(first, x);
    }
  }

  lemma {:induction false} InsertAscends<T(!new)>(x: T, s: seq<T>, less: (T, T) -> bool)
    requires StrictOrder(less) && Ascending(s, less)
    ensures Ascending(Insert(x, s, less), less)
  {
    if s == [] {
    } else if !less(s[0], x) {
      NoneBelow(x, s, less);
      PutFirst(x, s, less);
    } else {
      assert !less(x, s[0]);
      InsertAscends(x, s[1..], less);
      InsertKeeps(x, s[1..], less);
      hide StrictOrder, Insert;
      var rest := Insert(x, s[1..], less);
      forall y | y in rest ensures !less(y, s[0]) {
        assert y in multiset(s[1..]) + multiset{x};
        if y != x {
          var j :| 0 <= j < |s[1..]| && s[1..][j] == y;
          assert y == s[j + 1];
        }
      }
      PutFirst(s[0], rest, less);
    }
  }

  lemma {:induction false} SortIs<T(!new)>(s: seq<T>, less: (T, T) -> bool)
    requires StrictOrder(less)
    ensures multiset(Sort(s, less)) == multiset(s) && Ascending(Sort(s, less), less)
  {
    if s != [] {
      SortIs(s[1..], less);
      InsertKeeps(s[0], Sort(s[1..], less), less);
      InsertAscends(s[0], Sort(s[1..], less), less);
      assert s == [s[0]] + s[1..];
    }
  }

  lemma HeadFirst<T(!new)>(a: seq<T>, less: (T, T) -> bool, x: T)
    requires a != [] && Ascending(a, less) && x in a
    ensures x == a[0] || !less(x, a[0])
  {
    var j :| 0 <= j < |a| && a[j] == x;
  }

  lemma SameTail<T>(a: seq<T>, b: seq<T>)
    requires multiset(a) == multiset(b) && a != [] && b != [] && a[0] == b[0]
    ensures multiset(a[1..]) == multiset(b[1..])
  {
    assert a == [a[0]] + a[1..] && b == [b[0]] + b[1..];
    assert multiset(a[1..]) == multiset(a) - multiset{a[0]};
    assert multiset(b[1..]) == multiset(b) - multiset{b[0]};
  }

  /** One multiset has one ascending order. */
  lemma {:induction false} AscendingUnique<T(!new)>(a: seq<T>, b: seq<T>, less: (T, T) -> bool)
    requires multiset(a) == multiset(b) && Ascending(a, less) && Ascending(b, less) && Separates(a, less)
    ensures a == b
    decreases |a|
  {
    assert |multiset(a)| == |a| && |multiset(b)| == |b|;
    if a != [] {
      SameMembers(a, b);
      assert a[0] in b && b[0] in a;
      HeadFirst(a, less, b[0]);
      HeadFirst(b, less, a[0]);
      assert a[0] == b[0];
      SameTail(a, b);
      AscendingTail(a, less);
      AscendingTail(b, less);
      hide Ascending, Separates;
      AscendingUnique(a[1..], b[1..], less);
      assert a == [a[0]] + a[1..] && b == [b[0]] + b[1..];
    }
  }

  lemma AscendingTail<T(!new)>(a: seq<T>, less: (T, T) -> bool)
    requires a != []
    ensures Ascending(a, less) ==> Ascending(a[1..], less)
    ensures Separates(a, less) ==> Separates(a[1..], less)
  {
  }

  /** The sorted list does not depend on the order of the input. */
  lemma SortIgnoresOrder<T(!new)>(a: seq<T>, b: seq<T>, less: (T, T) -> bool)
    requires multiset(a) == multiset(b) && StrictOrder(less) && Separates(a, less)
    ensures Sort(a, less) == Sort(b, less)
  {
    SortIs(a, less);
    SortIs(b, less);
    SameMembers(Sort(a, less), a);
    AscendingUnique(Sort(a, less), Sort(b, less), less);
  }

  lemma SameMembers<T>(a: seq<T>, b: seq<T>)
    requires multiset(a) == multiset(b)
    ensures forall x :: x in a <==> x in b
  {
    assert forall x :: x in a <==> x in multiset(a);
    assert forall x :: x in b <==> x in multiset(b);
  }
}
