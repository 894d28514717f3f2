/** Fixed-width integers, option/result types and the sequence facts shared by every other module. */
module Base {

  type u8 = x: int | 0 <= x < 0x100
  type u16 = x: int | 0 <= x < 0x1_0000
  type u32 = x: int | 0 <= x < 0x1_0000_0000
  type u64 = x: int | 0 <= x < 0x1_0000_0000_0000_0000

  const U16_MAX: u16 := 0xFFFF
  const U32_SIZE: int := 0x1_0000_0000
  const U64_SIZE: int := 0x1_0000_0000_0000_0000

  datatype Option<+T> = None | Some(value: T)

  datatype Result<+T, +E> = Ok(value: T) | Err(error: E)

  predicate Distinct<T(==)>(s: seq<T>) {
    forall i, j :: 0 <= i < j < |s| ==> s[i] != s[j]
  }

  /** `order` lists the members of `s`, each exactly once: one iteration order of a hash container. */
  predicate Enumerates<T(==)>(order: seq<T>, s: set<T>) {
    && Distinct(order)
    && (forall x :: x in order ==> x in s)
    && (forall x :: x in s ==> x in order)
  }

  /** Two sequences holding the same elements the same number of times. */
  predicate Permutation<T(==)>(a: seq<T>, b: seq<T>) {
    multiset(a) == multiset(b)
  }

  lemma {:induction false} EnumerationSize<T>(order: seq<T>, s: set<T>)
    requires Enumerates(order, s)
    ensures |order| == |s|
    decreases |order|
  {
    if order == [] {
      assert s == {};
    } else {
      var last := order[|order| - 1];
      var init := order[..|order| - 1];
      assert last in order && last in s;
      forall x ensures x in init <==> x in s - {last} {
        if x in s - {last} {
          assert x in order;
          var i :| 0 <= i < |order| && order[i] == x;
          assert init[i] == x;
        }
        if x in init {
          var i :| 0 <= i < |init| && init[i] == x;
          assert order[i] == x;
        }
      }
      EnumerationSize(init, s - {last});
    }
  }

  /** Every finite set can be listed. */
  lemma {:induction false} SomeOrder<T>(s: set<T>) returns (order: seq<T>)
    ensures Enumerates(order, s)
  {
    if s == {} {
      order := [];
    } else {
      var h :| h in s;
      var rest := SomeOrder(s - {h});
      order := [h] + rest;
      assert h !in rest;
      assert forall x :: x in order <==> x == h || x in rest;
    }
  }

  /** Listing a set lists each member once. */
  lemma {:induction false} EnumerationMultiset<T>(order: seq<T>, s: set<T>)
    requires Enumerates(order, s)
    ensures multiset(order) == multiset(s)
  {
    forall x ensures multiset(order)[x] == multiset(s)[x] {
      DistinctMultiplicity(order, x);
      assert x in order <==> x in s;
    }
  }

  lemma {:induction false} DistinctMultiplicity<T>(s: seq<T>, x: T)
    requires Distinct(s)
    ensures multiset(s)[x] == if x in s then 1 else 0
  {
    if s == [] {
    } else {
      var init := s[..|s| - 1];
      assert s == init + [s[|s| - 1]];
      DistinctMultiplicity(init, x);
    }
  }

  /** Dropping position `i` from a sequence removes one occurrence of `s[i]`. */
  lemma RemoveAt<T>(s: seq<T>, i: nat)
    requires i < |s|
    ensures multiset(s) == multiset(s[..i] + s[i + 1..]) + multiset{s[i]}
  {
    assert s == s[..i] + [s[i]] + s[i + 1..];
  }

  lemma {:induction false} SubsetSize<T>(a: set<T>, b: set<T>)
    requires a <= b
    ensures |a| <= |b|
  {
    if a == {} {
    } else {
      var x :| x in a;
      SubsetSize(a - {x}, b - {x});
    }
  }

  lemma SameRest<T>(m: multiset<T>, n: multiset<T>, x: T)
    requires m + multiset{x} == n + multiset{x}
    ensures m == n
  {
    assert m == (m + multiset{x}) - multiset{x};
    assert n == (n + multiset{x}) - multiset{x};
  }

  lemma Outside<T>(small: set<T>, big: set<T>) returns (x: T)
    requires |small| < |big|
    ensures x in big && x !in small
  {
    if big <= small {
      SubsetSize(big, small);
    }
    x :| x in big && x !in small;
  }

  lemma EmptyRight<T>(a: seq<T>)
    ensures a + [] == a
  {
  }

  lemma Assoc<T>(a: seq<T>, b: seq<T>, c: seq<T>)
    ensures (a + b) + c == a + (b + c)
  {
  }

  lemma SplitLast<T>(s: seq<T>, k: nat)
    requires k < |s|
    ensures s[..k + 1] == s[..k] + [s[k]]
  {
  }

  lemma Residue(y: int, x: int, t: int, n: int)
    requires 0 <= x < n && y == x + n * t
    ensures y % n == x
  {
    if y / n < t {
      Scale(n, y / n + 1, t);
    } else if y / n > t {
      Scale(n, t + 1, y / n);
    }
  }

  lemma Scale(n: int, a: int, b: int)
    requires 0 < n && a <= b
    ensures n * a <= n * b && n * a == n * (a - 1) + n
  {
  }
}
