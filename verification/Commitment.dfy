/**
 * The challenge SDK's weight commitment: the bytes fed to SHA-256 after a stable sort by hotkey.
 * Hotkeys are byte strings; a weight is its eight little-endian bytes.
 */
module Commitment {
  import opened Base

  type Bytes = seq<u8>
  type WeightBytes = b: Bytes | |b| == 8 witness seq(8, _ => 0)

  datatype Assignment = Assignment(hotkey: Bytes, weight: WeightBytes)

  // ---------------------------------------------------------------- the order on hotkeys

  predicate Le(a: Bytes, b: Bytes) {
    a == [] || (b != [] && (a[0] < b[0] || (a[0] == b[0] && Le(a[1..], b[1..]))))
  }

  lemma {:induction false} LeTotal(a: Bytes, b: Bytes)
    ensures Le(a, b) || Le(b, a)
  {
    if a == [] || b == [] {
    } else {
      LeTotal(a[1..], b[1..]);
    }
  }

  lemma {:induction false} LeTransitive(a: Bytes, b: Bytes, c: Bytes)
    requires Le(a, b) && Le(b, c)
    ensures Le(a, c)
  {
    if a == [] {
    } else if b[0] == a[0] && c[0] == a[0] {
      LeTransitive(a[1..], b[1..], c[1..]);
    }
  }

  lemma {:induction false} LeAntisymmetric(a: Bytes, b: Bytes)
    requires Le(a, b) && Le(b, a)
    ensures a == b
  {
    if a == [] {
    } else {
      LeAntisymmetric(a[1..], b[1..]);
      assert a == [a[0]] + a[1..] && b == [b[0]] + b[1..];
    }
  }

  /** The order is that of a dictionary: a prefix comes first, otherwise the first difference decides. */
  lemma {:induction false} LeMeans(a: Bytes, b: Bytes)
    ensures Le(a, b) <==> a <= b || exists k :: 0 <= k < |a| && k < |b| && a[..k] == b[..k] && a[k] < b[k]
  {
    if a == [] || b == [] {
    } else {
      LeMeans(a[1..], b[1..]);
      assert a == [a[0]] + a[1..] && b == [b[0]] + b[1..];
      if a[0] == b[0] {
        if k :| 0 <= k < |a| - 1 && k < |b| - 1 && a[1..][..k] == b[1..][..k] && a[1..][k] < b[1..][k] {
          assert a[..k + 1] == [a[0]] + a[1..][..k] && b[..k + 1] == [b[0]] + b[1..][..k];
          assert a[k + 1] < b[k + 1];
        }
        if k :| 0 <= k < |a| && k < |b| && a[..k] == b[..k] && a[k] < b[k] {
          assert a[1..][..k - 1] == a[..k][1..] && b[1..][..k - 1] == b[..k][1..];
          assert a[1..][k - 1] < b[1..][k - 1];
        }
      } else if a[0] < b[0] {
        assert a[..0] == b[..0];
      } else if k :| 0 <= k < |a| && k < |b| && a[..k] == b[..k] && a[k] < b[k] {
        SameFirst(a, b, k);
      }
    }
  }

  lemma SameFirst(a: Bytes, b: Bytes, k: nat)
    requires 0 <= k < |a| && k < |b| && a[..k] == b[..k]
    ensures k > 0 ==> a[0] == b[0]
  {
    if k > 0 {
      assert a[..k][0] == b[..k][0];
    }
  }

  // ---------------------------------------------------------------- the stable sort

  /** Puts `x` behind every entry whose hotkey is not above its own. */
  function Insert(sorted: seq<Assignment>, x: Assignment): seq<Assignment> {
    if sorted == [] || Le(sorted[|sorted| - 1].hotkey, x.hotkey) then sorted + [x]
    else Insert(sorted[..|sorted| - 1], x) + [sorted[|sorted| - 1]]
  }

  function Sort(s: seq<Assignment>): seq<Assignment> {
    if s == [] then [] else Insert(Sort(s[..|s| - 1]), s[|s| - 1])
  }

  ghost predicate Sorted(s: seq<Assignment>) {
    forall i, j :: 0 <= i < j < |s| ==> Le(s[i].hotkey, s[j].hotkey)
  }

  function WithKey(s: seq<Assignment>, key: Bytes): seq<Assignment> {
    if s == [] then [] else WithKey(s[..|s| - 1], key) + if s[|s| - 1].hotkey == key then [s[|s| - 1]] else []
  }

  lemma {:induction false} InsertPermutes(sorted: seq<Assignment>, x: Assignment)
    ensures multiset(Insert(sorted, x)) == multiset(sorted) + multiset{x}
    ensures forall y :: y in Insert(sorted, x) ==> y in sorted || y == x
  {
    if sorted == [] || Le(sorted[|sorted| - 1].hotkey, x.hotkey) {
    } else {
      InsertPermutes(sorted[..|sorted| - 1], x);
      assert sorted == sorted[..|sorted| - 1] + [sorted[|sorted| - 1]];
    }
  }

  lemma {:induction false} InsertSorts(sorted: seq<Assignment>, x: Assignment)
    requires Sorted(sorted)
    ensures Sorted(Insert(sorted, x))
  {
    if sorted == [] {
    } else {
      var init, last := sorted[..|sorted| - 1], sorted[|sorted| - 1];
      if Le(last.hotkey, x.hotkey) {
        forall i | 0 <= i < |sorted| ensures Le(sorted[i].hotkey, x.hotkey) {
          if i < |sorted| - 1 {
            LeTransitive(sorted[i].hotkey, last.hotkey, x.hotkey);
          }
        }
      } else {
        LeTotal(last.hotkey, x.hotkey);
        InsertSorts(init, x);
        InsertPermutes(init, x);
        var r := Insert(init, x);
        forall i | 0 <= i < |r| ensures Le(r[i].hotkey, last.hotkey) {
          assert r[i] in r;
          if r[i] != x {
            var k :| 0 <= k < |init| && init[k] == r[i];
            assert sorted[k] == r[i];
          }
        }
      }
    }
  }

  /** Sorted, nothing lost or added. */
  lemma {:induction false} SortSorts(s: seq<Assignment>)
    ensures Sorted(Sort(s)) && Permutation(Sort(s), s)
  {
    if s == [] {
    } else {
      SortSorts(s[..|s| - 1]);
      InsertSorts(Sort(s[..|s| - 1]), s[|s| - 1]);
      InsertPermutes(Sort(s[..|s| - 1]), s[|s| - 1]);
      assert s == s[..|s| - 1] + [s[|s| - 1]];
    }
  }

  lemma WithKeyAppend(s: seq<Assignment>, x: Assignment, key: Bytes)
    ensures WithKey(s + [x], key) == WithKey(s, key) + if x.hotkey == key then [x] else []
  {
    assert (s + [x])[..|s + [x]| - 1] == s;
  }

  lemma {:induction false} InsertStable(sorted: seq<Assignment>, x: Assignment, key: Bytes)
    ensures WithKey(Insert(sorted, x), key) == WithKey(sorted, key) + if x.hotkey == key then [x] else []
  {
    if sorted == [] || Le(sorted[|sorted| - 1].hotkey, x.hotkey) {
      WithKeyAppend(sorted, x, key);
    } else {
      var init, last := sorted[..|sorted| - 1], sorted[|sorted| - 1];
      LeTotal(x.hotkey, x.hotkey);
      assert last.hotkey != x.hotkey;
      InsertStable(init, x, key);
      WithKeyAppend(Insert(init, x), last, key);
      var before := WithKey(init, key);
      assert x.hotkey == key ==> (before + [x]) + [] == before + [x];
    }
  }

  /** Entries with equal hotkeys keep their order. */
  lemma {:induction false} SortStable(s: seq<Assignment>, key: Bytes)
    ensures WithKey(Sort(s), key) == WithKey(s, key)
  {
    if s == [] {
    } else {
      SortStable(s[..|s| - 1], key);
      InsertStable(Sort(s[..|s| - 1]), s[|s| - 1], key);
    }
  }

  // ---------------------------------------------------------------- what is hashed

  function Feed(s: seq<Assignment>): Bytes {
    if s == [] then [] else Feed(s[..|s| - 1]) + (s[|s| - 1].hotkey + s[|s| - 1].weight)
  }

  function HashInput(s: seq<Assignment>, secret: Bytes): Bytes {
    Feed(Sort(s)) + secret
  }

  method CreateCommitment(weights: seq<Assignment>, secret: Bytes) returns (fed: Bytes)
    ensures fed == HashInput(weights, secret)
  {
    var sorted := Sort(weights);
    fed := [];
    for i := 0 to |sorted|
      invariant fed == Feed(sorted[..i])
    {
      SplitLast(sorted, i);
      fed := fed + (sorted[i].hotkey + sorted[i].weight);
    }
    assert sorted[..|sorted|] == sorted;
    fed := fed + secret;
  }

  // ---------------------------------------------------------------- order independence

  /** No hotkey is listed with two different weights. */
  ghost predicate Functional(s: seq<Assignment>) {
    forall i, j :: 0 <= i < j < |s| && s[i].hotkey == s[j].hotkey ==> s[i].weight == s[j].weight
  }

  lemma SameKeySameEntry(s: seq<Assignment>, x: Assignment, y: Assignment)
    requires Functional(s) && x in s && y in s && x.hotkey == y.hotkey
    ensures x == y
  {
    var i :| 0 <= i < |s| && s[i] == x;
    var j :| 0 <= j < |s| && s[j] == y;
  }

  lemma SameLast(a: seq<Assignment>, b: seq<Assignment>, s: seq<Assignment>)
    requires Sorted(a) && Sorted(b) && Permutation(a, b) && Functional(s) && a != [] && b != []
    requires forall x :: x in a ==> x in s
    ensures a[|a| - 1] == b[|b| - 1]
  {
    var x, y := a[|a| - 1], b[|b| - 1];
    SameMembers(a, b);
    LastIsGreatest(a, y);
    LastIsGreatest(b, x);
    LeAntisymmetric(x.hotkey, y.hotkey);
    SameKeySameEntry(s, x, y);
  }

  lemma DropLast(a: seq<Assignment>)
    requires a != []
    ensures multiset(a) == multiset(a[..|a| - 1]) + multiset{a[|a| - 1]}
  {
    assert a == a[..|a| - 1] + [a[|a| - 1]];
  }

  /** A sorted list without conflicting entries is determined by its elements. */
  lemma {:induction false} SortedUnique(a: seq<Assignment>, b: seq<Assignment>, s: seq<Assignment>)
    requires Sorted(a) && Sorted(b) && Permutation(a, b) && Functional(s)
    requires forall x :: x in a ==> x in s
    ensures a == b
    decreases |a|
  {
    assert |multiset(a)| == |a| && |multiset(b)| == |b|;
    if a == [] {
    } else {
      SameLast(a, b, s);
      DropLast(a);
      DropLast(b);
      SameRest(multiset(a[..|a| - 1]), multiset(b[..|b| - 1]), a[|a| - 1]);
      SortedUnique(a[..|a| - 1], b[..|b| - 1], s);
      assert a == a[..|a| - 1] + [a[|a| - 1]] && b == b[..|b| - 1] + [a[|a| - 1]];
    }
  }

  lemma SameMembers(a: seq<Assignment>, b: seq<Assignment>)
    requires Permutation(a, b)
    ensures forall x :: x in a <==> x in b
  {
    forall x ensures x in a <==> x in b {
      assert x in a <==> x in multiset(a);
      assert x in b <==> x in multiset(b);
    }
  }

  lemma LastIsGreatest(a: seq<Assignment>, x: Assignment)
    requires Sorted(a) && x in a
    ensures Le(x.hotkey, a[|a| - 1].hotkey)
  {
    var i :| 0 <= i < |a| && a[i] == x;
    LeTotal(x.hotkey, x.hotkey);
  }

  lemma PermutedSameInput(s: seq<Assignment>, t: seq<Assignment>)
    requires Functional(s) && Permutation(s, t)
    ensures Sort(s) == Sort(t)
  {
    SortSorts(s);
    SortSorts(t);
    SameMembers(Sort(s), s);
    SortedUnique(Sort(s), Sort(t), s);
  }

  // ---------------------------------------------------------------- and the converse

  ghost predicate SameKeys(a: seq<Assignment>, b: seq<Assignment>) {
    |a| == |b| && forall i :: 0 <= i < |a| ==> a[i].hotkey == b[i].hotkey
  }

  /** With the same hotkeys in the same places, equal bytes mean equal entries. */
  lemma {:induction false} FeedInjective(a: seq<Assignment>, b: seq<Assignment>)
    requires SameKeys(a, b) && Feed(a) == Feed(b)
    ensures a == b
  {
    if a == [] {
    } else {
      var x, y := a[|a| - 1], b[|b| - 1];
      var fa, fb := Feed(a[..|a| - 1]), Feed(b[..|b| - 1]);
      var ba, bb := x.hotkey + x.weight, y.hotkey + y.weight;
      assert |ba| == |bb|;
      EqualTails(fa, ba, fb, bb);
      EqualTails(x.hotkey, x.weight, y.hotkey, y.weight);
      FeedInjective(a[..|a| - 1], b[..|b| - 1]);
      assert a == a[..|a| - 1] + [x] && b == b[..|b| - 1] + [y];
    }
  }

  lemma EqualTails(a: Bytes, x: Bytes, b: Bytes, y: Bytes)
    requires a + x == b + y && |x| == |y|
    ensures a == b && x == y
  {
    assert |a| == |b|;
    assert a == (a + x)[..|a|] && b == (b + y)[..|b|];
    assert x == (a + x)[|a|..] && y == (b + y)[|b|..];
  }

  /** Sorting permuted lists gives the same hotkeys in the same places. */
  lemma {:induction false} SortedKeysAgree(a: seq<Assignment>, b: seq<Assignment>)
    requires Sorted(a) && Sorted(b) && Keys(a) == Keys(b)
    ensures SameKeys(a, b)
    decreases |a|
  {
    KeysSize(a);
    KeysSize(b);
    if a == [] {
    } else {
      var a', b' := a[..|a| - 1], b[..|b| - 1];
      var x, y := a[|a| - 1], b[|b| - 1];
      KeyHolder(b, a, y);
      KeyHolder(a, b, x);
      LeAntisymmetric(x.hotkey, y.hotkey);
      SameRest(Keys(a'), Keys(b'), x.hotkey);
      SortedKeysAgree(a', b');
      SameKeysExtend(a, b);
    }
  }

  lemma SameKeysExtend(a: seq<Assignment>, b: seq<Assignment>)
    requires a != [] && b != [] && SameKeys(a[..|a| - 1], b[..|b| - 1])
    requires a[|a| - 1].hotkey == b[|b| - 1].hotkey
    ensures SameKeys(a, b)
  {
    var a', b' := a[..|a| - 1], b[..|b| - 1];
    forall i | 0 <= i < |a| ensures a[i].hotkey == b[i].hotkey {
      assert i < |a'| ==> a[i] == a'[i] && b[i] == b'[i];
    }
  }

  ghost function Keys(s: seq<Assignment>): multiset<Bytes> {
    if s == [] then multiset{} else Keys(s[..|s| - 1]) + multiset{s[|s| - 1].hotkey}
  }

  lemma {:induction false} KeysSize(s: seq<Assignment>)
    ensures |Keys(s)| == |s|
  {
    if s == [] {
    } else {
      KeysSize(s[..|s| - 1]);
    }
  }

  lemma {:induction false} KeyOccurs(s: seq<Assignment>, k: Bytes)
    ensures k in Keys(s) <==> exists i :: 0 <= i < |s| && s[i].hotkey == k
  {
    if s == [] {
    } else {
      KeyOccurs(s[..|s| - 1], k);
    }
  }

  /** The greatest hotkey of one list bounds every hotkey the other has. */
  lemma KeyHolder(a: seq<Assignment>, b: seq<Assignment>, x: Assignment)
    requires Sorted(b) && Keys(a) == Keys(b) && x in a
    ensures b != [] && Le(x.hotkey, b[|b| - 1].hotkey)
  {
    KeyOccurs(a, x.hotkey);
    KeyOccurs(b, x.hotkey);
    var i :| 0 <= i < |b| && b[i].hotkey == x.hotkey;
    LeTotal(x.hotkey, x.hotkey);
  }

  lemma {:induction false} InsertKeys(sorted: seq<Assignment>, x: Assignment)
    ensures Keys(Insert(sorted, x)) == Keys(sorted) + multiset{x.hotkey}
  {
    if sorted == [] || Le(sorted[|sorted| - 1].hotkey, x.hotkey) {
      KeysAppend(sorted, x);
    } else {
      InsertKeys(sorted[..|sorted| - 1], x);
      KeysAppend(Insert(sorted[..|sorted| - 1], x), sorted[|sorted| - 1]);
    }
  }

  lemma KeysAppend(s: seq<Assignment>, x: Assignment)
    ensures Keys(s + [x]) == Keys(s) + multiset{x.hotkey}
  {
    assert (s + [x])[..|s + [x]| - 1] == s;
  }

  lemma {:induction false} SortKeys(s: seq<Assignment>)
    ensures Keys(Sort(s)) == Keys(s)
  {
    if s == [] {
    } else {
      SortKeys(s[..|s| - 1]);
      InsertKeys(Sort(s[..|s| - 1]), s[|s| - 1]);
    }
  }

  lemma {:induction false} PositionalKeys(s: seq<Assignment>, t: seq<Assignment>)
    requires SameKeys(s, t)
    ensures Keys(s) == Keys(t)
  {
    if s == [] {
    } else {
      PositionalKeys(s[..|s| - 1], t[..|t| - 1]);
    }
  }

  lemma {:induction false} WithKeyAt(s: seq<Assignment>, i: nat)
    requires i < |s|
    ensures var r := |WithKey(s[..i], s[i].hotkey)|;
            r < |WithKey(s, s[i].hotkey)| && WithKey(s, s[i].hotkey)[r] == s[i]
  {
    if i < |s| - 1 {
      var init := s[..|s| - 1];
      WithKeyAt(init, i);
      assert init[..i] == s[..i];
    }
  }

  lemma SameInputSameSort(s: seq<Assignment>, t: seq<Assignment>, secret: Bytes)
    requires SameKeys(s, t) && HashInput(s, secret) == HashInput(t, secret)
    ensures Sort(s) == Sort(t)
  {
    EqualTails(Feed(Sort(s)), secret, Feed(Sort(t)), secret);
    SortSorts(s);
    SortSorts(t);
    SortKeys(s);
    SortKeys(t);
    PositionalKeys(s, t);
    SortedKeysAgree(Sort(s), Sort(t));
    FeedInjective(Sort(s), Sort(t));
  }

  /** Lists that first differ at `i`, under the same hotkey, sort differently. */
  lemma DifferentSort(s: seq<Assignment>, t: seq<Assignment>, i: nat)
    requires i < |s| && i < |t| && s[..i] == t[..i] && s[i].hotkey == t[i].hotkey && s[i] != t[i]
    ensures Sort(s) != Sort(t)
  {
    SortStable(s, s[i].hotkey);
    SortStable(t, s[i].hotkey);
    WithKeyAt(s, i);
    WithKeyAt(t, i);
  }

  function Swap(s: seq<Assignment>, i: nat, j: nat): seq<Assignment>
    requires i < j < |s|
  {
    s[i := s[j]][j := s[i]]
  }

  lemma SwapPermutes(s: seq<Assignment>, i: nat, j: nat)
    requires i < j < |s|
    ensures Permutation(s, Swap(s, i, j))
  {
    var t := Swap(s, i, j);
    assert s == s[..i] + [s[i]] + s[i + 1..j] + [s[j]] + s[j + 1..];
    assert t == s[..i] + [s[j]] + s[i + 1..j] + [s[i]] + s[j + 1..];
  }

  lemma SwapKeepsKeys(s: seq<Assignment>, i: nat, j: nat)
    requires i < j < |s| && s[i].hotkey == s[j].hotkey
    ensures SameKeys(s, Swap(s, i, j)) && Swap(s, i, j)[..i] == s[..i] && Swap(s, i, j)[i] == s[j]
  {
  }

  /** Exchanging two entries of one hotkey with different weights changes what is hashed. */
  lemma ConflictShows(s: seq<Assignment>, i: nat, j: nat, secret: Bytes)
    requires i < j < |s| && s[i].hotkey == s[j].hotkey && s[i].weight != s[j].weight
    ensures Permutation(s, Swap(s, i, j)) && HashInput(s, secret) != HashInput(Swap(s, i, j), secret)
  {
    SwapPermutes(s, i, j);
    SwapKeepsKeys(s, i, j);
    DifferentInput(s, Swap(s, i, j), i, secret);
  }

  lemma DifferentInput(s: seq<Assignment>, t: seq<Assignment>, i: nat, secret: Bytes)
    requires SameKeys(s, t) && i < |s| && s[..i] == t[..i] && s[i] != t[i]
    ensures HashInput(s, secret) != HashInput(t, secret)
  {
    DifferentSort(s, t, i);
    if HashInput(s, secret) == HashInput(t, secret) {
      SameInputSameSort(s, t, secret);
    }
  }

  /**
   * The hash input is the same for every order of the list if and only if no hotkey is listed with
   * two different weights; in particular for pairwise distinct hotkeys.
   */
  lemma OrderIndependence(s: seq<Assignment>, secret: Bytes)
    ensures (forall t :: Permutation(s, t) ==> HashInput(t, secret) == HashInput(s, secret)) <==> Functional(s)
  {
    if Functional(s) {
      forall t | Permutation(s, t) ensures HashInput(t, secret) == HashInput(s, secret) {
        PermutedSameInput(s, t);
      }
    } else {
      var i, j :| 0 <= i < j < |s| && s[i].hotkey == s[j].hotkey && s[i].weight != s[j].weight;
      ConflictShows(s, i, j, secret);
    }
  }

  // ---------------------------------------------------------------- what the bytes bind

  ghost predicate KeyLength(s: seq<Assignment>, n: nat) {
    forall i :: 0 <= i < |s| ==> |s[i].hotkey| == n
  }

  lemma {:induction false} FeedLength(s: seq<Assignment>, n: nat)
    requires KeyLength(s, n)
    ensures |Feed(s)| == |s| * (n + 8)
  {
    if s == [] {
    } else {
      FeedLength(s[..|s| - 1], n);
      assert |s| * (n + 8) == (|s| - 1) * (n + 8) + (n + 8);
    }
  }

  lemma MoreRecords(a: nat, b: nat, n: nat)
    requires a < b
    ensures a * (n + 8) < b * (n + 8)
  {
    assert b * (n + 8) == a * (n + 8) + (b - a) * (n + 8);
  }

  lemma SameCount(a: nat, b: nat, n: nat)
    ensures a * (n + 8) == b * (n + 8) <==> a == b
  {
    if a < b {
      MoreRecords(a, b, n);
    } else if b < a {
      MoreRecords(b, a, n);
    }
  }

  /** With hotkeys of one length, the bytes determine the entries. */
  lemma {:induction false} FeedBinds(a: seq<Assignment>, b: seq<Assignment>, n: nat)
    requires KeyLength(a, n) && KeyLength(b, n) && Feed(a) == Feed(b)
    ensures a == b
    decreases |a|
  {
    FeedLength(a, n);
    FeedLength(b, n);
    SameCount(|a|, |b|, n);
    if a == [] {
    } else {
      var x, y := a[|a| - 1], b[|b| - 1];
      EqualTails(Feed(a[..|a| - 1]), x.hotkey + x.weight, Feed(b[..|b| - 1]), y.hotkey + y.weight);
      EqualTails(x.hotkey, x.weight, y.hotkey, y.weight);
      FeedBinds(a[..|a| - 1], b[..|b| - 1], n);
      assert a == a[..|a| - 1] + [x] && b == b[..|b| - 1] + [y];
    }
  }

  lemma {:induction false} SortKeepsLength(s: seq<Assignment>, n: nat)
    requires KeyLength(s, n)
    ensures KeyLength(Sort(s), n)
  {
    SortSorts(s);
    SameMembers(Sort(s), s);
    forall i | 0 <= i < |Sort(s)| ensures |Sort(s)[i].hotkey| == n {
      assert Sort(s)[i] in Sort(s) && Sort(s)[i] in s;
    }
  }

  /**
   * Binding: under one secret, two lists whose hotkeys all have one length give the same bytes if and only
   * if they are the same after sorting; in particular they are then permutations of each other.
   */
  lemma InputBinds(s: seq<Assignment>, t: seq<Assignment>, secret: Bytes, n: nat)
    requires KeyLength(s, n) && KeyLength(t, n)
    ensures HashInput(s, secret) == HashInput(t, secret) <==> Sort(s) == Sort(t)
    ensures HashInput(s, secret) == HashInput(t, secret) ==> Permutation(s, t)
  {
    SortSorts(s);
    SortSorts(t);
    SortKeepsLength(s, n);
    SortKeepsLength(t, n);
    if HashInput(s, secret) == HashInput(t, secret) {
      EqualTails(Feed(Sort(s)), secret, Feed(Sort(t)), secret);
      FeedBinds(Sort(s), Sort(t), n);
    }
  }

  /** Hotkeys are fed without their length: two entries give the bytes of one with a longer hotkey. */
  lemma EntriesMerge(x: Assignment, y: Assignment, secret: Bytes)
    requires Le(x.hotkey, y.hotkey)
    ensures HashInput([x, y], secret) == HashInput([Assignment((x.hotkey + x.weight) + y.hotkey, y.weight)], secret)
    ensures !Permutation([x, y], [Assignment((x.hotkey + x.weight) + y.hotkey, y.weight)])
  {
    var z := Assignment((x.hotkey + x.weight) + y.hotkey, y.weight);
    SortOne(x);
    SortOne(z);
    assert [x, y][..1] == [x] && [x] + [y] == [x, y];
    FeedOne(x);
    FeedOne(z);
    Assoc(x.hotkey + x.weight, y.hotkey, y.weight);
    assert |multiset([x, y])| == 2 && |multiset([z])| == 1;
  }

  lemma SortOne(x: Assignment)
    ensures Sort([x]) == [x]
  {
    assert [x][..0] == [] && Sort([]) == [];
  }

  lemma FeedOne(x: Assignment)
    ensures Feed([x]) == x.hotkey + x.weight
  {
    assert [x][..0] == [] && Feed([]) == [];
  }

  // ---------------------------------------------------------------- the secret

  /** The input ends with the secret, behind bytes that do not depend on it; so it binds the secret. */
  lemma SecretBinds(s: seq<Assignment>, secret: Bytes, other: Bytes)
    ensures |secret| <= |HashInput(s, secret)|
    ensures HashInput(s, secret)[|HashInput(s, secret)| - |secret|..] == secret
    ensures HashInput(s, secret) == HashInput(s, []) + secret
    ensures HashInput(s, secret) == HashInput(s, other) <==> secret == other
  {
    var fed := Feed(Sort(s));
    assert fed + [] == fed;
    assert (fed + secret)[|fed|..] == secret && (fed + other)[|fed|..] == other;
  }

  /** The input for two entries: the smaller hotkey first, each followed by its weight, then the secret. */
  lemma TwoEntries(x: Assignment, y: Assignment, secret: Bytes)
    requires x.hotkey != y.hotkey && Le(x.hotkey, y.hotkey)
    ensures HashInput([x, y], secret) == HashInput([y, x], secret)
            == x.hotkey + x.weight + (y.hotkey + y.weight) + secret
  {
    if Le(y.hotkey, x.hotkey) {
      LeAntisymmetric(x.hotkey, y.hotkey);
    }
    InsertTwo(x, y);
    InsertTwo(y, x);
    FeedTwo(x, y);
  }

  lemma FeedTwo(x: Assignment, y: Assignment)
    ensures Feed([x, y]) == x.hotkey + x.weight + (y.hotkey + y.weight)
  {
    assert [x, y][..1] == [x] && [x][..0] == [];
    assert Feed([x]) == Feed([]) + (x.hotkey + x.weight);
  }

  lemma InsertTwo(a: Assignment, b: Assignment)
    ensures Sort([a, b]) == if Le(a.hotkey, b.hotkey) then [a, b] else [b, a]
  {
    assert [a, b][..1] == [a] && [a][..0] == [];
    assert Sort([a]) == Insert([], a) == [a];
    assert Sort([a, b]) == Insert([a], b);
    assert Insert([], b) == [b];
  }
}
