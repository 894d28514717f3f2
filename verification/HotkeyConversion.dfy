/**
 * Hotkey weights of one challenge turned into UID weights: entries of one UID accumulate, and what
 * resolves to no miner goes to UID 0, the burn address. Floating point is read as real arithmetic.
 */
module HotkeyConversion {
  import opened Base
  import opened WeightArithmetic

  /** A hotkey with its weight, as in an assignment. */
  type Entry = WeightAssignment

  type Resolver = string -> Option<u16>

  predicate IsMiner(e: Entry, r: Resolver) {
    r(e.hotkey).Some? && r(e.hotkey).value != 0
  }

  // ---------------------------------------------------------------- sums over the entries

  function NatSum(entries: seq<Entry>, f: Entry -> nat): nat {
    if entries == [] then 0 else NatSum(entries[..|entries| - 1], f) + f(entries[|entries| - 1])
  }

  function RealSum(entries: seq<Entry>, f: Entry -> real): real {
    if entries == [] then 0.0 else RealSum(entries[..|entries| - 1], f) + f(entries[|entries| - 1])
  }

  function UidShare(e: Entry, r: Resolver, uid: u16): nat {
    if r(e.hotkey) == Some(uid) then ToU16(e.weight) else 0
  }

  function BurnShare(e: Entry, r: Resolver): real {
    if IsMiner(e, r) then 0.0 else e.weight
  }

  function Miss(e: Entry, r: Resolver): nat {
    if r(e.hotkey).None? then 1 else 0
  }

  function UidPart(r: Resolver, uid: u16): Entry -> nat {
    (e: Entry) => UidShare(e, r, uid)
  }

  function BurnPart(r: Resolver): Entry -> real {
    (e: Entry) => BurnShare(e, r)
  }

  function MissPart(r: Resolver): Entry -> nat {
    (e: Entry) => Miss(e, r)
  }

  function UidWeight(entries: seq<Entry>, r: Resolver, uid: u16): nat {
    NatSum(entries, UidPart(r, uid))
  }

  function MinerUids(entries: seq<Entry>, r: Resolver): set<u16> {
    set e | e in entries && IsMiner(e, r) :: r(e.hotkey).value
  }

  /** The members of `s` from `from` on, in the order a BTreeMap iterates its keys. */
  function Ascending(s: set<u16>, from: nat): (keys: seq<u16>)
    requires from <= 65536
    ensures forall i, j :: 0 <= i < j < |keys| ==> keys[i] < keys[j]
    ensures forall x: u16 :: x in keys <==> x in s && from <= x
    decreases 65536 - from
  {
    if from == 65536 then []
    else if from in s then
      var rest := Ascending(s, from + 1);
      assert forall i :: 0 <= i < |rest| ==> rest[i] in rest;
      [from] + rest
    else Ascending(s, from + 1)
  }

  function Assigned(keys: seq<u16>, entries: seq<Entry>, r: Resolver): nat {
    if keys == [] then 0 else UidWeight(entries, r, keys[0]) + Assigned(keys[1..], entries, r)
  }

  function Capped(keys: seq<u16>, entries: seq<Entry>, r: Resolver): (ws: seq<u16>)
    ensures |ws| == |keys|
    ensures forall i :: 0 <= i < |keys| ==> ws[i] == Min(UidWeight(entries, r, keys[i]), 65535)
  {
    if keys == [] then [] else [Min(UidWeight(entries, r, keys[0]), 65535)] + Capped(keys[1..], entries, r)
  }

  function Min(a: int, b: int): int {
    if a < b then a else b
  }

  // ---------------------------------------------------------------- the conversion

  /** The burn entry: present when some burn weight fits beside the miners, or when there are no miners. */
  function FinalBurn(handed: nat, burn: real, misses: nat): (w: u16)
    ensures w <= ToU16(burn) && w + Min(handed, 65535) <= 65535
  {
    if ToU16(burn) > 0 || misses > 0 then Min(65535 - Min(handed, 65535), ToU16(burn)) else 0
  }

  function Assemble(keys: seq<u16>, ws: seq<u16>, burn: u16): (seq<u16>, seq<u16>) {
    if keys == [] then ([0], [65535])
    else if burn > 0 then ([0] + keys, [burn] + ws)
    else (keys, ws)
  }

  function Convert(entries: seq<Entry>, r: Resolver): (out: (seq<u16>, seq<u16>)) {
    var keys := Ascending(MinerUids(entries, r), 0);
    var burn := FinalBurn(Assigned(keys, entries, r), RealSum(entries, BurnPart(r)), NatSum(entries, MissPart(r)));
    Assemble(keys, Capped(keys, entries, r), burn)
  }

  method ConvertHotkeys(entries: seq<Entry>, r: Resolver) returns (uids: seq<u16>, weights: seq<u16>)
    ensures (uids, weights) == Convert(entries, r)
  {
    if |entries| == 0 {
      assert MinerUids(entries, r) == {};
      NoKeys(0);
      return [0], [65535];
    }
    var totals, burn, misses := Accumulate(entries, r);
    var keys := Ascending(totals.Keys, 0);
    var handed := SumTotals(entries, r, totals, keys);
    var finalBurn := FinalBurn(handed, burn, misses);
    var capped := CapTotals(entries, r, totals, keys);
    uids, weights := PushAll(keys, capped, finalBurn);
  }

  lemma {:induction false} NoKeys(from: nat)
    requires from <= 65536
    ensures Ascending({}, from) == []
    decreases 65536 - from
  {
    if from == 65536 {
    } else {
      NoKeys(from + 1);
    }
  }

  /** The burn entry first, if any, then the miners in key order. */
  method PushAll(keys: seq<u16>, capped: seq<u16>, finalBurn: u16) returns (uids: seq<u16>, weights: seq<u16>)
    requires |keys| == |capped|
    ensures (uids, weights) == Assemble(keys, capped, finalBurn)
  {
    uids, weights := [], [];
    if finalBurn > 0 || |keys| == 0 {
      uids, weights := [0], [if |keys| == 0 then 65535 else finalBurn];
    }
    ghost var headUids, headWeights := uids, weights;
    for i := 0 to |keys|
      invariant uids == headUids + keys[..i] && weights == headWeights + capped[..i]
    {
      uids := uids + [keys[i]];
      weights := weights + [capped[i]];
    }
    assert uids == headUids + keys && weights == headWeights + capped;
    assert |keys| == 0 ==> uids == [0] && weights == [65535];
    assert headUids == [] ==> uids == keys && weights == capped;
  }

  method SumTotals(entries: seq<Entry>, r: Resolver, totals: map<u16, nat>, keys: seq<u16>) returns (sum: nat)
    requires forall u :: u in keys ==> u in totals && totals[u] == UidWeight(entries, r, u)
    ensures sum == Assigned(keys, entries, r)
  {
    sum := 0;
    for i := 0 to |keys|
      invariant sum + Assigned(keys[i..], entries, r) == Assigned(keys, entries, r)
    {
      assert keys[i..][1..] == keys[i + 1..];
      assert keys[i] in keys;
      sum := sum + totals[keys[i]];
    }
  }

  method CapTotals(entries: seq<Entry>, r: Resolver, totals: map<u16, nat>, keys: seq<u16>) returns (weights: seq<u16>)
    requires forall u :: u in keys ==> u in totals && totals[u] == UidWeight(entries, r, u)
    ensures weights == Capped(keys, entries, r)
  {
    weights := [];
    for i := 0 to |keys|
      invariant |weights| == i
      invariant forall j :: 0 <= j < i ==> weights[j] == Min(UidWeight(entries, r, keys[j]), 65535)
    {
      assert keys[i] in keys;
      weights := weights + [Min(totals[keys[i]], 65535)];
    }
  }

  /** What the first loop has gathered from `entries`. */
  ghost predicate Tallied(totals: map<u16, nat>, burn: real, misses: nat, entries: seq<Entry>, r: Resolver) {
    && totals.Keys == MinerUids(entries, r)
    && (forall u :: u in totals ==> totals[u] == UidWeight(entries, r, u))
    && burn == RealSum(entries, BurnPart(r)) && misses == NatSum(entries, MissPart(r))
  }

  method Accumulate(entries: seq<Entry>, r: Resolver) returns (totals: map<u16, nat>, burn: real, misses: nat)
    ensures Tallied(totals, burn, misses, entries, r)
  {
    totals, burn, misses := map[], 0.0, 0;
    for i := 0 to |entries|
      invariant Tallied(totals, burn, misses, entries[..i], r)
    {
      SplitLast(entries, i);
      var e := entries[i];
      TallyEntry(totals, burn, misses, entries[..i], r, e);
      if r(e.hotkey).Some? {
        var uid := r(e.hotkey).value;
        if uid == 0 {
          burn := burn + e.weight;
        } else {
          totals := totals[uid := (if uid in totals then totals[uid] else 0) + ToU16(e.weight)];
        }
      } else {
        burn := burn + e.weight;
        misses := misses + 1;
      }
    }
    assert entries[..|entries|] == entries;
  }

  lemma TallyEntry(totals: map<u16, nat>, burn: real, misses: nat, entries: seq<Entry>, r: Resolver, e: Entry)
    requires Tallied(totals, burn, misses, entries, r)
    ensures IsMiner(e, r) ==>
              var uid := r(e.hotkey).value;
              Tallied(totals[uid := (if uid in totals then totals[uid] else 0) + ToU16(e.weight)], burn, misses, entries + [e], r)
    ensures !IsMiner(e, r) ==> Tallied(totals, burn + e.weight, misses + Miss(e, r), entries + [e], r)
  {
    MinerUidsAppend(entries, r, e);
    SumsAppend(entries, r, e);
    if IsMiner(e, r) {
      AbsentUid(entries, r, r(e.hotkey).value);
    }
  }

  lemma SumsAppend(entries: seq<Entry>, r: Resolver, e: Entry)
    ensures forall u: u16 :: UidWeight(entries + [e], r, u) == UidWeight(entries, r, u) + UidShare(e, r, u)
    ensures RealSum(entries + [e], BurnPart(r)) == RealSum(entries, BurnPart(r)) + BurnShare(e, r)
    ensures NatSum(entries + [e], MissPart(r)) == NatSum(entries, MissPart(r)) + Miss(e, r)
  {
    assert (entries + [e])[..|entries + [e]| - 1] == entries;
  }

  lemma MinerUidsAppend(entries: seq<Entry>, r: Resolver, e: Entry)
    ensures MinerUids(entries + [e], r) == MinerUids(entries, r) + if IsMiner(e, r) then {r(e.hotkey).value} else {}
  {
    var more := entries + [e];
    assert forall x :: x in more <==> x in entries || x == e;
    forall u | u in MinerUids(entries, r) ensures u in MinerUids(more, r) {
      var x :| x in entries && IsMiner(x, r) && r(x.hotkey).value == u;
      assert x in more;
    }
  }

  lemma {:induction false} AbsentUid(entries: seq<Entry>, r: Resolver, uid: u16)
    ensures uid != 0 && uid !in MinerUids(entries, r) ==> UidWeight(entries, r, uid) == 0
  {
    if entries == [] {
    } else if uid != 0 && uid !in MinerUids(entries, r) {
      var init, last := entries[..|entries| - 1], entries[|entries| - 1];
      assert entries == init + [last];
      MinerUidsAppend(init, r, last);
      AbsentUid(init, r, uid);
    }
  }

  // ---------------------------------------------------------------- shape of the result

  /**
   * The two vectors align, UIDs strictly ascend (so UID 0 can only be first), the non-zero UIDs are
   * exactly those some entry resolves to, and each gets the sum of its floored weights, at most 65535.
   */
  lemma ConvertShape(entries: seq<Entry>, r: Resolver)
    ensures var (uids, ws) := Convert(entries, r);
            && |uids| == |ws| > 0
            && (forall i, j :: 0 <= i < j < |uids| ==> uids[i] < uids[j])
            && (forall u: u16 :: u != 0 ==> (u in uids <==> u in MinerUids(entries, r)))
            && (forall i :: 0 <= i < |uids| && uids[i] != 0 ==> ws[i] == Min(UidWeight(entries, r, uids[i]), 65535))
  {
    var keys := Ascending(MinerUids(entries, r), 0);
    assert 0 !in MinerUids(entries, r);
    assert forall i :: 0 <= i < |keys| ==> keys[i] in keys;
    var burn := FinalBurn(Assigned(keys, entries, r), RealSum(entries, BurnPart(r)), NatSum(entries, MissPart(r)));
    AssembleShape(keys, Capped(keys, entries, r), burn);
  }

  lemma AssembleShape(keys: seq<u16>, ws: seq<u16>, burn: u16)
    requires |ws| == |keys| && forall i :: 0 <= i < |keys| ==> keys[i] > 0
    requires forall i, j :: 0 <= i < j < |keys| ==> keys[i] < keys[j]
    ensures var (uids, ws') := Assemble(keys, ws, burn);
            && |uids| == |ws'| > 0
            && (forall i, j :: 0 <= i < j < |uids| ==> uids[i] < uids[j])
            && (forall u: u16 :: u != 0 ==> (u in uids <==> u in keys))
            && (forall i :: 0 <= i < |uids| && uids[i] != 0 ==>
                              var k := if uids[0] == 0 then i - 1 else i;
                              0 <= k < |keys| && uids[i] == keys[k] && ws'[i] == ws[k])
  {
  }

  // ---------------------------------------------------------------- order does not matter

  lemma {:induction false} NatSumConcat(a: seq<Entry>, b: seq<Entry>, f: Entry -> nat)
    ensures NatSum(a + b, f) == NatSum(a, f) + NatSum(b, f)
  {
    if b == [] {
      assert a + b == a;
    } else {
      NatSumConcat(a, b[..|b| - 1], f);
      assert (a + b)[..|a + b| - 1] == a + b[..|b| - 1];
    }
  }

  lemma {:induction false} RealSumConcat(a: seq<Entry>, b: seq<Entry>, f: Entry -> real)
    ensures RealSum(a + b, f) == RealSum(a, f) + RealSum(b, f)
  {
    if b == [] {
      assert a + b == a;
    } else {
      RealSumConcat(a, b[..|b| - 1], f);
      assert (a + b)[..|a + b| - 1] == a + b[..|b| - 1];
    }
  }

  lemma IndexIn(a: seq<Entry>, b: seq<Entry>, x: Entry) returns (j: nat)
    requires Permutation(a, b) && x in a
    ensures j < |b| && b[j] == x
  {
    assert x in multiset(a);
    assert x in multiset(b);
    j :| 0 <= j < |b| && b[j] == x;
  }

  /** The last entry of `a` sits somewhere in a permutation `b`; taking it out leaves permutations. */
  lemma TakeOut(a: seq<Entry>, b: seq<Entry>) returns (j: nat)
    requires Permutation(a, b) && a != []
    ensures j < |b| && b[j] == a[|a| - 1]
    ensures Permutation(a[..|a| - 1], b[..j] + b[j + 1..])
  {
    var last := a[|a| - 1];
    assert last in a;
    j := IndexIn(a, b, last);
    RemoveAt(b, j);
    RemoveAt(a, |a| - 1);
    assert a[..|a| - 1] + a[|a|..] == a[..|a| - 1];
    SameRest(multiset(a[..|a| - 1]), multiset(b[..j] + b[j + 1..]), last);
  }

  lemma {:induction false} NatSumPermutes(a: seq<Entry>, b: seq<Entry>, f: Entry -> nat)
    requires Permutation(a, b)
    ensures NatSum(a, f) == NatSum(b, f)
    decreases |a|
  {
    if a == [] {
      assert |multiset(b)| == 0;
    } else {
      var j := TakeOut(a, b);
      NatSumPermutes(a[..|a| - 1], b[..j] + b[j + 1..], f);
      NatSumConcat(b[..j], b[j + 1..], f);
      NatSumConcat(b[..j], [b[j]] + b[j + 1..], f);
      NatSumConcat([b[j]], b[j + 1..], f);
      assert [b[j]][..0] == [];
      assert b == b[..j] + ([b[j]] + b[j + 1..]);
    }
  }

  lemma {:induction false} RealSumPermutes(a: seq<Entry>, b: seq<Entry>, f: Entry -> real)
    requires Permutation(a, b)
    ensures RealSum(a, f) == RealSum(b, f)
    decreases |a|
  {
    if a == [] {
      assert |multiset(b)| == 0;
    } else {
      var j := TakeOut(a, b);
      RealSumPermutes(a[..|a| - 1], b[..j] + b[j + 1..], f);
      RealSumConcat(b[..j], b[j + 1..], f);
      RealSumConcat(b[..j], [b[j]] + b[j + 1..], f);
      RealSumConcat([b[j]], b[j + 1..], f);
      assert [b[j]][..0] == [];
      assert b == b[..j] + ([b[j]] + b[j + 1..]);
    }
  }

  lemma {:induction false} AssignedPermutes(keys: seq<u16>, a: seq<Entry>, b: seq<Entry>, r: Resolver)
    requires Permutation(a, b)
    ensures Assigned(keys, a, r) == Assigned(keys, b, r)
    ensures Capped(keys, a, r) == Capped(keys, b, r)
  {
    if keys == [] {
    } else {
      NatSumPermutes(a, b, UidPart(r, keys[0]));
      AssignedPermutes(keys[1..], a, b, r);
    }
  }

  /** The result depends only on which entries there are and how often, not on their order. */
  lemma OrderIrrelevant(a: seq<Entry>, b: seq<Entry>, r: Resolver)
    requires Permutation(a, b)
    ensures Convert(a, r) == Convert(b, r)
  {
    assert |multiset(a)| == |a| && |multiset(b)| == |b|;
    assert forall e :: e in a <==> e in multiset(a);
    assert forall e :: e in b <==> e in multiset(b);
    assert MinerUids(a, r) == MinerUids(b, r);
    AssignedPermutes(Ascending(MinerUids(a, r), 0), a, b, r);
    RealSumPermutes(a, b, BurnPart(r));
    NatSumPermutes(a, b, MissPart(r));
  }

  // ---------------------------------------------------------------- where the weight goes

  function MinerShare(e: Entry, r: Resolver): nat {
    if IsMiner(e, r) then ToU16(e.weight) else 0
  }

  function MinerTotal(entries: seq<Entry>, r: Resolver): nat {
    if entries == [] then 0 else MinerTotal(entries[..|entries| - 1], r) + MinerShare(entries[|entries| - 1], r)
  }

  function MinerCount(entries: seq<Entry>, r: Resolver): nat {
    if entries == [] then 0
    else MinerCount(entries[..|entries| - 1], r) + if IsMiner(entries[|entries| - 1], r) then 1 else 0
  }

  /** The weight per UID, added over all UIDs from `from` on. */
  function RangeSum(entries: seq<Entry>, r: Resolver, from: nat): nat
    requires from <= 65536
    decreases 65536 - from
  {
    if from == 65536 then 0 else UidWeight(entries, r, from) + RangeSum(entries, r, from + 1)
  }

  lemma {:induction false} RangeSumAppend(entries: seq<Entry>, r: Resolver, e: Entry, from: nat)
    requires 1 <= from <= 65536
    ensures RangeSum(entries + [e], r, from)
            == RangeSum(entries, r, from) + if IsMiner(e, r) && r(e.hotkey).value >= from then ToU16(e.weight) else 0
    decreases 65536 - from
  {
    if from < 65536 {
      SumsAppend(entries, r, e);
      RangeSumAppend(entries, r, e, from + 1);
    }
  }

  lemma {:induction false} RangeSumOfNothing(r: Resolver, from: nat)
    requires from <= 65536
    ensures RangeSum([], r, from) == 0
    decreases 65536 - from
  {
    if from < 65536 {
      RangeSumOfNothing(r, from + 1);
    }
  }

  lemma {:induction false} RangeSumIsMinerTotal(entries: seq<Entry>, r: Resolver)
    ensures RangeSum(entries, r, 1) == MinerTotal(entries, r)
  {
    if entries == [] {
      RangeSumOfNothing(r, 1);
    } else {
      var init, last := entries[..|entries| - 1], entries[|entries| - 1];
      assert entries == init + [last];
      RangeSumIsMinerTotal(init, r);
      RangeSumAppend(init, r, last, 1);
    }
  }

  lemma {:induction false} AssignedIsRangeSum(entries: seq<Entry>, r: Resolver, from: nat)
    requires 1 <= from <= 65536
    ensures Assigned(Ascending(MinerUids(entries, r), from), entries, r) == RangeSum(entries, r, from)
    decreases 65536 - from
  {
    if from < 65536 {
      AbsentUid(entries, r, from);
      AssignedIsRangeSum(entries, r, from + 1);
    }
  }

  /** Accumulating per UID loses nothing: over all UIDs it is the sum of every miner entry's floored weight. */
  lemma AssignedIsMinerTotal(entries: seq<Entry>, r: Resolver)
    ensures Assigned(Ascending(MinerUids(entries, r), 0), entries, r) == MinerTotal(entries, r)
  {
    assert Ascending(MinerUids(entries, r), 0) == Ascending(MinerUids(entries, r), 1);
    AssignedIsRangeSum(entries, r, 1);
    RangeSumIsMinerTotal(entries, r);
  }

  lemma {:induction false} SumCons(x: u16, ws: seq<u16>)
    ensures Sum([x] + ws) == x + Sum(ws)
  {
    if ws == [] {
      assert [x] + ws == [x] && [x][..0] == [];
    } else {
      SumCons(x, ws[..|ws| - 1]);
      assert ([x] + ws)[..|[x] + ws| - 1] == [x] + ws[..|ws| - 1];
    }
  }

  lemma {:induction false} CappedTotal(keys: seq<u16>, entries: seq<Entry>, r: Resolver)
    requires Assigned(keys, entries, r) <= 65535
    ensures Sum(Capped(keys, entries, r)) == Assigned(keys, entries, r)
  {
    if keys == [] {
    } else {
      CappedTotal(keys[1..], entries, r);
      SumCons(Min(UidWeight(entries, r, keys[0]), 65535), Capped(keys[1..], entries, r));
    }
  }

  /** The floored burn weight as far as it fits beside the miners' weights. */
  function BurnThatFits(entries: seq<Entry>, r: Resolver): (w: u16) {
    Min(ToU16(RealSum(entries, BurnPart(r))), 65535 - Min(MinerTotal(entries, r), 65535))
  }

  lemma ConvertAssembles(entries: seq<Entry>, r: Resolver)
    ensures var keys := Ascending(MinerUids(entries, r), 0);
            Convert(entries, r) == Assemble(keys, Capped(keys, entries, r), BurnThatFits(entries, r))
  {
    AssignedIsMinerTotal(entries, r);
    FinalBurnFits(MinerTotal(entries, r), RealSum(entries, BurnPart(r)), NatSum(entries, MissPart(r)));
  }

  /**
   * The burn entry, for arbitrary inputs: alone with 65535 when no entry resolves to a miner;
   * otherwise the burn weight that fits beside all the miners' weights, and absent if that is 0.
   */
  lemma BurnEntry(entries: seq<Entry>, r: Resolver)
    ensures var (uids, ws) := Convert(entries, r);
            var burn := BurnThatFits(entries, r);
            if MinerUids(entries, r) == {} then uids == [0] && ws == [65535]
            else (0 in uids <==> burn > 0) && (burn > 0 ==> uids[0] == 0 && |ws| > 0 && ws[0] == burn)
  {
    var keys := Ascending(MinerUids(entries, r), 0);
    ConvertAssembles(entries, r);
    MinersOnly(entries, r);
    AssembledBurn(keys, Capped(keys, entries, r), BurnThatFits(entries, r));
  }

  lemma FinalBurnFits(handed: nat, burn: real, misses: nat)
    ensures FinalBurn(handed, burn, misses) == Min(ToU16(burn), 65535 - Min(handed, 65535))
  {
  }

  lemma MinersOnly(entries: seq<Entry>, r: Resolver)
    ensures var keys := Ascending(MinerUids(entries, r), 0);
            0 !in keys && (keys == [] <==> MinerUids(entries, r) == {})
  {
    if MinerUids(entries, r) == {} {
      NoKeys(0);
    } else {
      var u :| u in MinerUids(entries, r);
      assert u in Ascending(MinerUids(entries, r), 0);
    }
  }

  lemma AssembledBurn(keys: seq<u16>, ws: seq<u16>, burn: u16)
    requires 0 !in keys
    ensures var (uids, ws') := Assemble(keys, ws, burn);
            if keys == [] then uids == [0] && ws' == [65535]
            else (0 in uids <==> burn > 0) && (burn > 0 ==> uids[0] == 0 && |ws'| > 0 && ws'[0] == burn)
  {
  }

  /** For arbitrary inputs: a burn entry beside miners never takes the total above 65535. */
  lemma BurnFitsBesideMiners(entries: seq<Entry>, r: Resolver)
    ensures var (uids, ws) := Convert(entries, r);
            |uids| > 1 && uids[0] == 0 ==> Sum(ws) <= 65535
  {
    var keys := Ascending(MinerUids(entries, r), 0);
    var given := Assigned(keys, entries, r);
    assert 0 !in keys;
    if given <= 65535 && keys != [] {
      CappedTotal(keys, entries, r);
      SumCons(Convert(entries, r).1[0], Capped(keys, entries, r));
    }
  }

  predicate Weighted(entries: seq<Entry>) {
    forall i :: 0 <= i < |entries| ==> entries[i].weight >= 0.0
  }

  lemma {:induction false} EntryWithinTotal(entries: seq<Entry>, i: nat)
    requires Weighted(entries) && i < |entries|
    ensures entries[i].weight <= TotalWeight(entries)
  {
    TotalOfNonNegative(entries[..|entries| - 1]);
    if i < |entries| - 1 {
      EntryWithinTotal(entries[..|entries| - 1], i);
    }
  }

  lemma {:induction false} TotalOfNonNegative(entries: seq<Entry>)
    requires Weighted(entries)
    ensures TotalWeight(entries) >= 0.0
  {
    if entries == [] {
    } else {
      TotalOfNonNegative(entries[..|entries| - 1]);
    }
  }

  /** Each miner entry loses less than one unit to flooring; the rest of the weight is burn. */
  lemma {:induction false} FlooringLoss(entries: seq<Entry>, r: Resolver)
    requires forall i :: 0 <= i < |entries| ==> 0.0 <= entries[i].weight <= 1.0
    ensures var left := 65535.0 * (TotalWeight(entries) - RealSum(entries, BurnPart(r)));
            && MinerTotal(entries, r) as real <= left <= (MinerTotal(entries, r) + MinerCount(entries, r)) as real
            && (MinerCount(entries, r) > 0 ==> left < (MinerTotal(entries, r) + MinerCount(entries, r)) as real)
  {
    if entries == [] {
    } else {
      FlooringLoss(entries[..|entries| - 1], r);
    }
  }

  lemma {:induction false} MinersCounted(entries: seq<Entry>, r: Resolver)
    ensures MinerCount(entries, r) == 0 <==> MinerUids(entries, r) == {}
    ensures MinerCount(entries, r) == 0 ==> RealSum(entries, BurnPart(r)) == TotalWeight(entries)
  {
    if entries == [] {
    } else {
      var init, last := entries[..|entries| - 1], entries[|entries| - 1];
      assert entries == init + [last];
      MinersCounted(init, r);
      MinerUidsAppend(init, r, last);
    }
  }

  lemma {:induction false} BurnNonNegative(entries: seq<Entry>, r: Resolver)
    requires Weighted(entries)
    ensures 0.0 <= RealSum(entries, BurnPart(r)) <= TotalWeight(entries)
  {
    if entries == [] {
    } else {
      BurnNonNegative(entries[..|entries| - 1], r);
    }
  }

  /**
   * Mass conservation: non-negative weights totalling 1, `k` of whose entries resolve to a miner,
   * leave the output total in (65535 - (k + 1), 65535]; with no miner it is exactly 65535.
   */
  lemma MassConserved(entries: seq<Entry>, r: Resolver)
    requires Weighted(entries) && TotalWeight(entries) == 1.0
    ensures var k := MinerCount(entries, r);
            var total := Sum(Convert(entries, r).1);
            if k == 0 then total == 65535 else 65535 - (k + 1) < total <= 65535
  {
    var keys := Ascending(MinerUids(entries, r), 0);
    var burn := RealSum(entries, BurnPart(r));
    var misses := NatSum(entries, MissPart(r));
    MinersCounted(entries, r);
    if keys == [] {
      assert MinerUids(entries, r) == {};
      assert [65535][..0] == [];
    } else {
      assert keys[0] in MinerUids(entries, r);
      forall i | 0 <= i < |entries| ensures entries[i].weight <= 1.0 {
        EntryWithinTotal(entries, i);
      }
      FlooringLoss(entries, r);
      BurnNonNegative(entries, r);
      AssignedIsMinerTotal(entries, r);
      BurnFillsUp(MinerTotal(entries, r), MinerCount(entries, r), burn, misses);
      CappedTotal(keys, entries, r);
      AssembledTotal(keys, Capped(keys, entries, r), FinalBurn(MinerTotal(entries, r), burn, misses));
    }
  }

  lemma AssembledTotal(keys: seq<u16>, ws: seq<u16>, burn: u16)
    requires keys != []
    ensures Sum(Assemble(keys, ws, burn).1) == burn + Sum(ws)
  {
    SumCons(burn, ws);
  }

  lemma BurnFillsUp(given: nat, k: nat, burn: real, misses: nat)
    requires 0.0 <= burn <= 1.0 && k > 0
    requires given as real <= 65535.0 * (1.0 - burn) < (given + k) as real
    ensures given <= 65535
    ensures FinalBurn(given, burn, misses) == ToU16(burn)
    ensures 65535 - (k + 1) < given + ToU16(burn) <= 65535
  {
  }
}
