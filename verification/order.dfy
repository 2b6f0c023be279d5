/** The order of Go strings, and what `sort.Slice`, `sort.Strings` and `sort.Float64s` promise. */
module Order {
  /** A strict weak order: what a `less` function has to be. */
  ghost predicate IsOrder<T(!new)>(less: (T, T) -> bool) {
    && (forall a :: !less(a, a))
    && (forall a, b, c :: less(a, b) && less(b, c) ==> less(a, c))
    && (forall a, b, c :: less(a, c) ==> less(a, b) || less(b, c))
  }

  /** Byte order of UTF-8, which is code point order. */
  predicate Less(a: string, b: string) {
    b != [] && (a == [] || a[0] < b[0] || (a[0] == b[0] && Less(a[1..], b[1..])))
  }

  lemma {:induction false} LessIrreflexive(a: string)
    ensures !Less(a, a)
  {
    if a != [] {
      LessIrreflexive(a[1..]);
    }
  }

  lemma {:induction false} LessTransitive(a: string, b: string, c: string)
    requires Less(a, b) && Less(b, c)
    ensures Less(a, c)
  {
    if a != [] && a[0] == b[0] == c[0] {
      LessTransitive(a[1..], b[1..], c[1..]);
    }
  }

  lemma {:induction false} LessTotal(a: string, b: string)
    ensures a == b || Less(a, b) || Less(b, a)
  {
    if a != [] && b != [] && a[0] == b[0] {
      LessTotal(a[1..], b[1..]);
      assert a == [a[0]] + a[1..] && b == [b[0]] + b[1..];
    }
  }

  lemma StringOrder()
    ensures IsOrder(Less)
  {
    forall a: string ensures !Less(a, a) {
      LessIrreflexive(a);
    }
    forall a: string, b: string, c: string | Less(a, b) && Less(b, c) ensures Less(a, c) {
      LessTransitive(a, b, c);
    }
    forall a: string, b: string, c: string | Less(a, c) ensures Less(a, b) || Less(b, c) {
      LessTotal(a, b);
      LessTotal(b, c);
      if Less(b, a) {
        LessTransitive(b, a, c);
      }
    }
  }

  // ----- sorting

  /** The strings agree up to `i`, where `a` ends first or has the smaller character. */
  ghost predicate SmallerAt(a: string, b: string, i: nat) {
    i <= |a| && i < |b| && a[..i] == b[..i] && (i == |a| || a[i] < b[i])
  }

  /** The order of Go's `<`: what decides is the first place where the strings differ. */
  lemma {:induction false} LessExactly(a: string, b: string)
    ensures Less(a, b) <==> exists i: nat :: SmallerAt(a, b, i)
    decreases |a|
  {
    if a != [] && b != [] && a[0] == b[0] {
      LessExactly(a[1..], b[1..]);
      if i: nat :| SmallerAt(a[1..], b[1..], i) {
        assert a[..i + 1] == [a[0]] + a[1..][..i] && b[..i + 1] == [b[0]] + b[1..][..i];
        assert SmallerAt(a, b, i + 1);
      }
      if i: nat :| SmallerAt(a, b, i) {
        assert a[1..][..i - 1] == a[..i][1..] && b[1..][..i - 1] == b[..i][1..];
        assert SmallerAt(a[1..], b[1..], i - 1);
      }
    } else {
      forall i: nat | SmallerAt(a, b, i) ensures i == 0 {
        SameHead(a, b, i);
      }
      if Less(a, b) {
        assert SmallerAt(a, b, 0);
      }
    }
  }

  lemma SameHead(a: string, b: string, i: nat)
    requires SmallerAt(a, b, i)
    ensures i == 0 || (a != [] && b != [] && a[0] == b[0])
  {
    assert i > 0 ==> a[..i][0] == b[..i][0];
  }

  function Insert<T>(xs: seq<T>, x: T, less: (T, T) -> bool): (r: seq<T>)
    ensures |r| == |xs| + 1
  {
    if xs == [] then [x] else
    var n := |xs| - 1;
    if less(x, xs[n]) then Insert(xs[..n], x, less) + [xs[n]] else xs + [x]
  }

  /** A sort of `xs`.  Where two elements tie, Go leaves their order open; nothing below relies on
      it, because every result about order independence asks for distinct elements. */
  function Sort<T>(xs: seq<T>, less: (T, T) -> bool): (r: seq<T>)
    ensures |r| == |xs|
  {
    if xs == [] then [] else Insert(Sort(xs[..|xs| - 1], less), xs[|xs| - 1], less)
  }

  ghost predicate Sorted<T>(xs: seq<T>, less: (T, T) -> bool) {
    forall i, j :: 0 <= i < j < |xs| ==> !less(xs[j], xs[i])
  }

  ghost predicate StrictlySorted<T>(xs: seq<T>, less: (T, T) -> bool) {
    forall i, j :: 0 <= i < j < |xs| ==> less(xs[i], xs[j])
  }

  /** No two elements tie. */
  ghost predicate Distinct<T>(xs: seq<T>, less: (T, T) -> bool) {
    forall i, j :: 0 <= i < j < |xs| ==> less(xs[i], xs[j]) || less(xs[j], xs[i])
  }

  lemma {:induction false} InsertPermutes<T>(xs: seq<T>, x: T, less: (T, T) -> bool)
    ensures multiset(Insert(xs, x, less)) == multiset(xs) + multiset{x}
  {
    if xs != [] {
      var n := |xs| - 1;
      assert xs == xs[..n] + [xs[n]];
      if less(x, xs[n]) {
        InsertPermutes(xs[..n], x, less);
      }
    }
  }

  lemma {:induction false} SortPermutes<T>(xs: seq<T>, less: (T, T) -> bool)
    ensures multiset(Sort(xs, less)) == multiset(xs)
  {
    if xs != [] {
      var n := |xs| - 1;
      SortPermutes(xs[..n], less);
      InsertPermutes(Sort(xs[..n], less), xs[n], less);
      assert xs == xs[..n] + [xs[n]];
    }
  }

  lemma InsertMember<T>(xs: seq<T>, x: T, less: (T, T) -> bool, y: T)
    requires y in Insert(xs, x, less)
    ensures y == x || y in xs
  {
    InsertPermutes(xs, x, less);
    assert y in multiset(Insert(xs, x, less));
  }

  lemma ThroughMiddle<T(!new)>(less: (T, T) -> bool, a: T, b: T, c: T)
    requires IsOrder(less)
    ensures less(a, c) ==> less(a, b) || less(b, c)
  {
  }

  lemma {:induction false} InsertSorts<T(!new)>(xs: seq<T>, x: T, less: (T, T) -> bool)
    requires IsOrder(less) && Sorted(xs, less)
    ensures Sorted(Insert(xs, x, less), less)
  {
    if xs != [] {
      var n := |xs| - 1;
      if less(x, xs[n]) {
        InsertSorts(xs[..n], x, less);
        var r := Insert(xs[..n], x, less);
        forall i | 0 <= i < |r| ensures !less(xs[n], r[i]) {
          InsertMember(xs[..n], x, less, r[i]);
        }
      } else {
        forall i | 0 <= i < |xs| ensures !less(x, xs[i]) {
          ThroughMiddle(less, x, xs[n], xs[i]);
        }
      }
    }
  }

  lemma {:induction false} SortSorts<T(!new)>(xs: seq<T>, less: (T, T) -> bool)
    requires IsOrder(less)
    ensures Sorted(Sort(xs, less), less)
  {
    if xs != [] {
      SortSorts(xs[..|xs| - 1], less);
      InsertSorts(Sort(xs[..|xs| - 1], less), xs[|xs| - 1], less);
    }
  }

  lemma HasMember<T>(xs: seq<T>)
    ensures xs == [] || exists x :: x in xs
  {
    if xs != [] {
      assert xs[0] in xs;
    }
  }

  lemma SameMembers<T>(xs: seq<T>, ys: seq<T>)
    requires multiset(xs) == multiset(ys)
    ensures forall x :: x in xs <==> x in ys
  {
    forall x ensures x in xs <==> x in ys {
      assert x in xs <==> x in multiset(xs);
      assert x in ys <==> x in multiset(ys);
    }
  }

  /** Two strictly sorted sequences of the same elements are the same sequence. */
  lemma {:induction false} SortedUnique<T(!new)>(xs: seq<T>, ys: seq<T>, less: (T, T) -> bool)
    requires IsOrder(less) && StrictlySorted(xs, less) && StrictlySorted(ys, less)
    requires forall x :: x in xs <==> x in ys
    ensures xs == ys
    decreases |xs|
  {
    if xs == [] {
      HasMember(ys);
    } else {
      var x := xs[|xs| - 1];
      assert x in ys;
      var y := ys[|ys| - 1];
      assert y in xs;
      var i :| 0 <= i < |xs| && xs[i] == y;
      var j :| 0 <= j < |ys| && ys[j] == x;
      assert x == y;
      var xs', ys' := xs[..|xs| - 1], ys[..|ys| - 1];
      forall z ensures z in xs' <==> z in ys' {
        if z in xs' {
          var a :| 0 <= a < |xs'| && xs'[a] == z;
          assert z in xs;
          assert less(z, x);
          var b :| 0 <= b < |ys| && ys[b] == z;
        }
        if z in ys' {
          var b :| 0 <= b < |ys'| && ys'[b] == z;
          assert z in ys;
          assert less(z, y);
          var a :| 0 <= a < |xs| && xs[a] == z;
        }
      }
      SortedUnique(xs', ys', less);
      assert xs == xs' + [x] && ys == ys' + [y];
    }
  }

  /** Distinct elements are told apart by their multiset alone. */
  lemma DistinctByMultiset<T(!new)>(xs: seq<T>, ys: seq<T>, less: (T, T) -> bool)
    requires IsOrder(less) && Distinct(xs, less) && multiset(xs) == multiset(ys)
    ensures Distinct(ys, less)
  {
    forall i, j | 0 <= i < j < |ys| ensures less(ys[i], ys[j]) || less(ys[j], ys[i]) {
      Pair(ys, i, j);
      OncePerElement(xs, ys[i], less);
      assert ys[i] in multiset(xs) && ys[j] in multiset(xs);
      var a :| 0 <= a < |xs| && xs[a] == ys[i];
      var b :| 0 <= b < |xs| && xs[b] == ys[j];
      assert a < b || b < a;
    }
  }

  lemma OncePerElement<T(!new)>(xs: seq<T>, x: T, less: (T, T) -> bool)
    requires IsOrder(less) && Distinct(xs, less)
    ensures multiset(xs)[x] <= 1
  {
    if multiset(xs)[x] >= 2 {
      var a, b := Twice(xs, x);
      assert false;
    }
  }

  lemma Pair<T>(ys: seq<T>, i: int, j: int)
    requires 0 <= i < j < |ys|
    ensures ys[i] == ys[j] ==> multiset(ys)[ys[i]] >= 2
    ensures ys[i] in multiset(ys) && ys[j] in multiset(ys)
  {
    assert ys == ys[..j] + [ys[j]] + ys[j + 1..];
    assert ys[i] in ys[..j];
    assert multiset(ys) == multiset(ys[..j]) + multiset{ys[j]} + multiset(ys[j + 1..]);
  }

  lemma {:induction false} Twice<T>(xs: seq<T>, x: T) returns (a: nat, b: nat)
    requires multiset(xs)[x] >= 2
    ensures a < b < |xs| && xs[a] == x && xs[b] == x
  {
    var n := |xs| - 1;
    assert xs == xs[..n] + [xs[n]];
    if xs[n] == x {
      b := n;
      assert x in multiset(xs[..n]);
      a :| 0 <= a < n && xs[..n][a] == x;
    } else {
      a, b := Twice(xs[..n], x);
    }
  }

  /** Sorting does not depend on the order things came in, when no two tie. */
  lemma SortOrderFree<T(!new)>(xs: seq<T>, ys: seq<T>, less: (T, T) -> bool)
    requires IsOrder(less) && Distinct(xs, less) && multiset(xs) == multiset(ys)
    ensures Sort(xs, less) == Sort(ys, less)
  {
    StrictSort(xs, less);
    DistinctByMultiset(xs, ys, less);
    StrictSort(ys, less);
    forall x ensures x in Sort(xs, less) <==> x in Sort(ys, less) {
      assert x in multiset(Sort(xs, less)) <==> x in multiset(Sort(ys, less));
    }
    SortedUnique(Sort(xs, less), Sort(ys, less), less);
  }

  lemma StrictSort<T(!new)>(xs: seq<T>, less: (T, T) -> bool)
    requires IsOrder(less) && Distinct(xs, less)
    ensures StrictlySorted(Sort(xs, less), less) && multiset(Sort(xs, less)) == multiset(xs)
  {
    SortSorts(xs, less);
    SortPermutes(xs, less);
    DistinctByMultiset(xs, Sort(xs, less), less);
  }

  // ----- the keys of a map, in order

  ghost function SortedKeys(keys: set<string>): seq<string> {
    if keys == {} then [] else
    var k :| k in keys;
    Insert(SortedKeys(keys - {k}), k, Less)
  }

  lemma KeysDistinct(rest: seq<string>, k: string)
    requires StrictlySorted(rest, Less) && k !in rest
    ensures Distinct(rest + [k], Less)
  {
    var plus := rest + [k];
    forall i, j | 0 <= i < j < |plus| ensures Less(plus[i], plus[j]) || Less(plus[j], plus[i]) {
      assert plus[i] in rest;
      LessTotal(plus[i], plus[j]);
    }
  }

  lemma InsertKey(rest: seq<string>, k: string)
    requires StrictlySorted(rest, Less) && k !in rest
    ensures StrictlySorted(Insert(rest, k, Less), Less)
    ensures forall x :: x in Insert(rest, k, Less) <==> x in rest || x == k
  {
    hide Less, Insert, IsOrder;
    var r, plus := Insert(rest, k, Less), rest + [k];
    KeysSorted(rest);
    StringOrder();
    InsertPermutes(rest, k, Less);
    InsertSorts(rest, k, Less);
    assert multiset(plus) == multiset(r);
    SameMembers(r, plus);
    KeysDistinct(rest, k);
    DistinctByMultiset(plus, r, Less);
  }

  /** Strictly sorted keys are sorted: no key is below itself. */
  lemma KeysSorted(keys: seq<string>)
    requires StrictlySorted(keys, Less)
    ensures Sorted(keys, Less)
  {
    forall i, j | 0 <= i < j < |keys| ensures !Less(keys[j], keys[i]) {
      LessIrreflexive(keys[i]);
      if Less(keys[j], keys[i]) {
        LessTransitive(keys[i], keys[j], keys[i]);
      }
    }
  }

  lemma {:induction false} SortedKeysProperties(keys: set<string>)
    ensures StrictlySorted(SortedKeys(keys), Less)
    ensures forall k :: k in SortedKeys(keys) <==> k in keys
  {
    if keys != {} {
      var k :| k in keys && SortedKeys(keys) == Insert(SortedKeys(keys - {k}), k, Less);
      SortedKeysProperties(keys - {k});
      InsertKey(SortedKeys(keys - {k}), k);
    }
  }
}
