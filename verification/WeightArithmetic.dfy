/**
 * From evaluation scores to the u16 weights handed to the chain: normalisation, conversion with a
 * hotkey lookup, and filling up to 65535 on the burn UID. Floating point is read as real arithmetic;
 * the casts to integers floor, and the values cast are already clamped into range.
 */
module WeightArithmetic {
  import opened Base

  datatype WeightAssignment = WeightAssignment(hotkey: string, weight: real)

  const TARGET_SUM: nat := 65535

  function Clamp(w: real): (c: real)
    ensures 0.0 <= c <= 1.0
    ensures 0.0 <= w <= 1.0 ==> c == w
    ensures w < 0.0 ==> c == 0.0
    ensures w > 1.0 ==> c == 1.0
  {
    if w < 0.0 then 0.0 else if w > 1.0 then 1.0 else w
  }

  function ToU16(w: real): (x: u16)
    ensures x as real <= 65535.0 * Clamp(w) < x as real + 1.0
  {
    (Clamp(w) * 65535.0).Floor
  }

  // ---------------------------------------------------------------- scores to weights

  function TotalScore(scores: seq<(string, real)>): real {
    if scores == [] then 0.0 else TotalScore(scores[..|scores| - 1]) + scores[|scores| - 1].1
  }

  function TotalWeight(ws: seq<WeightAssignment>): real {
    if ws == [] then 0.0 else TotalWeight(ws[..|ws| - 1]) + ws[|ws| - 1].weight
  }

  function Shares(scores: seq<(string, real)>, total: real): seq<WeightAssignment>
    requires total > 0.0
  {
    seq(|scores|, i requires 0 <= i < |scores| => WeightAssignment(scores[i].0, Clamp(scores[i].1 / total)))
  }

  function ScoresToWeights(scores: seq<(string, real)>): seq<WeightAssignment> {
    var total := TotalScore(scores);
    if scores == [] || total <= 0.0 then [] else Shares(scores, total)
  }

  predicate NonNegative(scores: seq<(string, real)>) {
    forall i :: 0 <= i < |scores| ==> scores[i].1 >= 0.0
  }

  lemma {:induction false} ScoreWithinTotal(scores: seq<(string, real)>, i: nat)
    requires NonNegative(scores) && i < |scores|
    ensures 0.0 <= scores[i].1 <= TotalScore(scores)
  {
    TotalScoreNonNegative(scores[..|scores| - 1]);
    if i < |scores| - 1 {
      ScoreWithinTotal(scores[..|scores| - 1], i);
    }
  }

  lemma {:induction false} TotalScoreNonNegative(scores: seq<(string, real)>)
    requires NonNegative(scores)
    ensures TotalScore(scores) >= 0.0
  {
    if scores == [] {
    } else {
      TotalScoreNonNegative(scores[..|scores| - 1]);
    }
  }

  lemma AddFractions(a: real, b: real, t: real)
    requires t > 0.0
    ensures a / t + b / t == (a + b) / t
  {
  }

  lemma WholeShare(t: real)
    requires t > 0.0
    ensures t / t == 1.0
  {
  }

  lemma ShareInRange(a: real, t: real)
    requires 0.0 <= a <= t && t > 0.0
    ensures 0.0 <= a / t <= 1.0
  {
  }

  lemma {:induction false} SharesTotal(scores: seq<(string, real)>, total: real)
    requires total > 0.0 && NonNegative(scores)
    requires forall i :: 0 <= i < |scores| ==> scores[i].1 <= total
    ensures TotalWeight(Shares(scores, total)) == TotalScore(scores) / total
  {
    if scores == [] {
    } else {
      var init, last := scores[..|scores| - 1], scores[|scores| - 1];
      SharesTotal(init, total);
      assert Shares(scores, total)[..|scores| - 1] == Shares(init, total);
      ShareInRange(last.1, total);
      AddFractions(TotalScore(init), last.1, total);
    }
  }

  ghost predicate ProperShare(w: WeightAssignment, score: (string, real), total: real)
    requires total > 0.0
  {
    w.hotkey == score.0 && 0.0 <= w.weight <= 1.0 && w.weight == score.1 / total
  }

  lemma ShareProper(scores: seq<(string, real)>, i: nat)
    requires NonNegative(scores) && TotalScore(scores) > 0.0 && i < |scores|
    ensures scores[i].1 <= TotalScore(scores)
    ensures ProperShare(Shares(scores, TotalScore(scores))[i], scores[i], TotalScore(scores))
  {
    ScoreWithinTotal(scores, i);
    ShareInRange(scores[i].1, TotalScore(scores));
  }

  /** Non-negative scores with a positive total become weights in [0, 1] that add up to exactly 1. */
  lemma ScoresNormalised(scores: seq<(string, real)>)
    requires NonNegative(scores) && TotalScore(scores) > 0.0
    ensures var ws := ScoresToWeights(scores);
            && |ws| == |scores| && TotalWeight(ws) == 1.0
            && (forall i :: 0 <= i < |ws| ==> ProperShare(ws[i], scores[i], TotalScore(scores)))
  {
    forall i | 0 <= i < |scores|
      ensures scores[i].1 <= TotalScore(scores)
      ensures ProperShare(Shares(scores, TotalScore(scores))[i], scores[i], TotalScore(scores))
    {
      ShareProper(scores, i);
    }
    SharesTotal(scores, TotalScore(scores));
    WholeShare(TotalScore(scores));
  }

  /** `normalize_weights`: divides in place by the total when it is positive, otherwise leaves all as is. */
  method NormalizeWeights(weights: seq<WeightAssignment>) returns (normalized: seq<WeightAssignment>)
    ensures |normalized| == |weights|
    ensures forall i :: 0 <= i < |weights| ==> normalized[i].hotkey == weights[i].hotkey
    ensures TotalWeight(weights) > 0.0 ==> TotalWeight(normalized) == 1.0
    ensures TotalWeight(weights) > 0.0 ==>
              forall i :: 0 <= i < |weights| ==> normalized[i].weight * TotalWeight(weights) == weights[i].weight
    ensures TotalWeight(weights) <= 0.0 ==> normalized == weights
  {
    var total := TotalWeight(weights);
    normalized := weights;
    if total > 0.0 {
      for i := 0 to |weights|
        invariant |normalized| == |weights|
        invariant forall j :: 0 <= j < i ==> normalized[j] == weights[j].(weight := weights[j].weight / total)
        invariant forall j :: i <= j < |weights| ==> normalized[j] == weights[j]
      {
        normalized := normalized[i := normalized[i].(weight := normalized[i].weight / total)];
      }
      ScaledTotal(weights, normalized, total);
    }
  }

  lemma {:induction false} ScaledTotal(ws: seq<WeightAssignment>, scaled: seq<WeightAssignment>, total: real)
    requires total > 0.0 && |scaled| == |ws|
    requires forall i :: 0 <= i < |ws| ==> scaled[i].weight == ws[i].weight / total
    ensures TotalWeight(scaled) == TotalWeight(ws) / total
  {
    if ws == [] {
    } else {
      ScaledTotal(ws[..|ws| - 1], scaled[..|ws| - 1], total);
      AddFractions(TotalWeight(ws[..|ws| - 1]), ws[|ws| - 1].weight, total);
    }
  }

  // ---------------------------------------------------------------- conversion with a lookup

  function ResolvedUids(ws: seq<WeightAssignment>, lookup: map<string, u16>): seq<u64> {
    if ws == [] then []
    else
      var rest, last := ResolvedUids(ws[..|ws| - 1], lookup), ws[|ws| - 1];
      if last.hotkey in lookup then rest + [lookup[last.hotkey]] else rest
  }

  function ResolvedWeights(ws: seq<WeightAssignment>, lookup: map<string, u16>): seq<u16> {
    if ws == [] then []
    else
      var rest, last := ResolvedWeights(ws[..|ws| - 1], lookup), ws[|ws| - 1];
      if last.hotkey in lookup then rest + [ToU16(last.weight)] else rest
  }

  function Unresolved(ws: seq<WeightAssignment>, lookup: map<string, u16>): seq<string> {
    if ws == [] then []
    else
      var rest, last := Unresolved(ws[..|ws| - 1], lookup), ws[|ws| - 1];
      if last.hotkey in lookup then rest else rest + [last.hotkey]
  }

  method ConvertAssignments(weights: seq<WeightAssignment>, lookup: map<string, u16>)
    returns (uids: seq<u64>, values: seq<u16>, unresolved: seq<string>)
    ensures uids == ResolvedUids(weights, lookup)
    ensures values == ResolvedWeights(weights, lookup)
    ensures unresolved == Unresolved(weights, lookup)
    ensures |uids| == |values| && |uids| + |unresolved| == |weights|
  {
    uids, values, unresolved := [], [], [];
    for i := 0 to |weights|
      invariant uids == ResolvedUids(weights[..i], lookup)
      invariant values == ResolvedWeights(weights[..i], lookup)
      invariant unresolved == Unresolved(weights[..i], lookup)
      invariant |uids| == |values| && |uids| + |unresolved| == i
    {
      SplitLast(weights, i);
      if weights[i].hotkey in lookup {
        uids := uids + [lookup[weights[i].hotkey]];
        values := values + [ToU16(weights[i].weight)];
      } else {
        unresolved := unresolved + [weights[i].hotkey];
      }
    }
    assert weights[..|weights|] == weights;
  }

  lemma {:induction false} ResolvedAlign(ws: seq<WeightAssignment>, lookup: map<string, u16>)
    ensures |ResolvedUids(ws, lookup)| == |ResolvedWeights(ws, lookup)|
  {
    if ws == [] {
    } else {
      ResolvedAlign(ws[..|ws| - 1], lookup);
    }
  }

  function Sum(ws: seq<u16>): nat {
    if ws == [] then 0 else Sum(ws[..|ws| - 1]) + ws[|ws| - 1]
  }

  lemma SumAppend(ws: seq<u16>, x: u16)
    ensures Sum(ws + [x]) == Sum(ws) + x
  {
    assert (ws + [x])[..|ws + [x]| - 1] == ws;
  }

  /** Flooring never creates weight: the resolved values stay within 65535 times the weight assigned. */
  lemma {:induction false} ResolvedWithinTotal(ws: seq<WeightAssignment>, lookup: map<string, u16>)
    requires forall i :: 0 <= i < |ws| ==> 0.0 <= ws[i].weight <= 1.0
    ensures Sum(ResolvedWeights(ws, lookup)) as real <= 65535.0 * TotalWeight(ws)
  {
    if ws == [] {
    } else {
      var init, last := ws[..|ws| - 1], ws[|ws| - 1];
      ResolvedWithinTotal(init, lookup);
      SumAppend(ResolvedWeights(init, lookup), ToU16(last.weight));
    }
  }

  // ---------------------------------------------------------------- filling up with burn

  /** The u32 accumulator of the source. */
  function WrappingSum(ws: seq<u16>): u32 {
    Sum(ws) % U32_SIZE
  }

  function SaturatingAdd(a: u16, b: u16): u16 {
    if a as int + b as int > 65535 then 65535 else a as int + b as int
  }

  function FirstBurn(uids: seq<u64>, i: nat): (pos: nat)
    requires i <= |uids|
    ensures i <= pos <= |uids|
    ensures pos < |uids| ==> uids[pos] == 0
    ensures forall j :: i <= j < pos ==> uids[j] != 0
    decreases |uids| - i
  {
    if i == |uids| || uids[i] == 0 then i else FirstBurn(uids, i + 1)
  }

  function Fill(uids: seq<u64>, ws: seq<u16>): (r: (seq<u64>, seq<u16>))
    requires |uids| == |ws|
    ensures |r.0| == |r.1|
  {
    if uids == [] then ([0], [65535])
    else if WrappingSum(ws) >= TARGET_SUM then (uids, ws)
    else
      var remaining := TARGET_SUM - WrappingSum(ws);
      var pos := FirstBurn(uids, 0);
      if pos < |uids| then (uids, ws[pos := SaturatingAdd(ws[pos], remaining)])
      else (uids + [0], ws + [remaining])
  }

  method FillWithBurn(uids: seq<u64>, ws: seq<u16>) returns (uids': seq<u64>, ws': seq<u16>)
    requires |uids| == |ws|
    ensures (uids', ws') == Fill(uids, ws)
  {
    uids', ws' := uids, ws;
    if |uids| == 0 {
      return [0], [65535];
    }
    var sum: nat := 0;
    for i := 0 to |ws|
      invariant sum == WrappingSum(ws[..i])
    {
      SplitLast(ws, i);
      sum := (sum + ws[i]) % U32_SIZE;
    }
    assert ws[..|ws|] == ws;
    if sum < TARGET_SUM {
      var pos := 0;
      while pos < |uids| && uids[pos] != 0
        invariant 0 <= pos <= |uids|
        invariant FirstBurn(uids, pos) == FirstBurn(uids, 0)
      {
        pos := pos + 1;
      }
      if pos < |uids| {
        ws' := ws'[pos := SaturatingAdd(ws'[pos], TARGET_SUM - sum)];
      } else {
        uids', ws' := uids' + [0], ws' + [TARGET_SUM - sum];
      }
    }
  }

  lemma {:induction false} SumBound(ws: seq<u16>)
    ensures Sum(ws) <= 65535 * |ws|
  {
    if ws == [] {
    } else {
      SumBound(ws[..|ws| - 1]);
    }
  }

  lemma {:induction false} SumReplicate(n: nat)
    ensures Sum(seq(n, _ => 65535)) == 65535 * n
  {
    if n == 0 {
    } else {
      SumReplicate(n - 1);
      assert seq(n, _ => 65535)[..n - 1] == seq(n - 1, _ => 65535);
    }
  }

  /** The u32 accumulator is exact for every list of `n` weights if and only if n <= 65537. */
  lemma AccumulatorExact(n: nat)
    ensures (forall ws: seq<u16> :: |ws| == n ==> WrappingSum(ws) == Sum(ws)) <==> n <= 65537
  {
    if n <= 65537 {
      forall ws: seq<u16> | |ws| == n ensures WrappingSum(ws) == Sum(ws) {
        SumBound(ws);
      }
    } else {
      var ws: seq<u16> := seq(n, _ => 65535);
      SumReplicate(n);
      assert |ws| == n && WrappingSum(ws) != Sum(ws);
    }
  }

  lemma {:induction false} SumUpdate(ws: seq<u16>, i: nat, x: u16)
    requires i < |ws|
    ensures ws[i] <= Sum(ws)
    ensures Sum(ws[i := x]) == Sum(ws) - ws[i] + x
  {
    var init := ws[..|ws| - 1];
    if i == |ws| - 1 {
      assert ws[i := x][..|ws| - 1] == init;
    } else {
      SumUpdate(init, i, x);
      assert ws[i := x][..|ws| - 1] == init[i := x];
    }
  }

  lemma ExactWhenSmall(ws: seq<u16>)
    requires Sum(ws) < U32_SIZE
    ensures WrappingSum(ws) == Sum(ws)
  {
  }

  /** As long as the u32 sum is exact, the filled total is max(65535, sum) and the addition never saturates. */
  lemma FillTotal(uids: seq<u64>, ws: seq<u16>)
    requires |uids| == |ws| && Sum(ws) < U32_SIZE
    ensures Sum(Fill(uids, ws).1) == if uids == [] || Sum(ws) < TARGET_SUM then TARGET_SUM else Sum(ws)
    ensures uids != [] && Sum(ws) < TARGET_SUM && FirstBurn(uids, 0) < |uids| ==>
              ws[FirstBurn(uids, 0)] + (TARGET_SUM - Sum(ws)) <= 65535
  {
    if uids == [] {
      assert [65535][..0] == [];
    } else if Sum(ws) < TARGET_SUM {
      ExactWhenSmall(ws);
      var pos, remaining := FirstBurn(uids, 0), TARGET_SUM - Sum(ws);
      if pos < |uids| {
        SumUpdate(ws, pos, SaturatingAdd(ws[pos], remaining));
      } else {
        SumAppend(ws, remaining);
      }
    }
  }

  /** Only the first burn entry changes, or one is added at the end; every other entry keeps UID and weight. */
  lemma FillKeepsOthers(uids: seq<u64>, ws: seq<u16>, i: nat)
    requires i < |uids| == |ws|
    ensures var (uids', ws') := Fill(uids, ws);
            && i < |uids'| && uids'[i] == uids[i]
            && (uids[i] != 0 || FirstBurn(uids, 0) != i ==> ws'[i] == ws[i])
            && (ws'[i] != ws[i] ==> uids[i] == 0 && forall j :: 0 <= j < i ==> uids[j] != 0)
  {
  }

  /** Filling twice is filling once. */
  lemma FillIdempotent(uids: seq<u64>, ws: seq<u16>)
    requires |uids| == |ws| && Sum(ws) < U32_SIZE
    ensures var (uids', ws') := Fill(uids, ws); Fill(uids', ws') == (uids', ws')
  {
    FillTotal(uids, ws);
  }

  /**
   * End to end: for non-negative scores with a positive total and any hotkey lookup, what is handed
   * to the chain totals exactly 65535.
   */
  lemma ScoresFillExactly(scores: seq<(string, real)>, lookup: map<string, u16>)
    requires NonNegative(scores) && TotalScore(scores) > 0.0
    ensures var ws := ScoresToWeights(scores);
            var uids, values := ResolvedUids(ws, lookup), ResolvedWeights(ws, lookup);
            |uids| == |values| && Sum(Fill(uids, values).1) == 65535
  {
    var ws := ScoresToWeights(scores);
    ScoresNormalised(scores);
    ResolvedAlign(ws, lookup);
    ResolvedWithinTotal(ws, lookup);
    FillTotal(ResolvedUids(ws, lookup), ResolvedWeights(ws, lookup));
  }

  // ---------------------------------------------------------------- which entry goes where

  /**
   * Each resolved assignment gives one output entry, its UID and its floored weight side by side, behind
   * those of the resolved assignments before it.
   */
  lemma {:induction false} ResolvedEntry(ws: seq<WeightAssignment>, lookup: map<string, u16>, i: nat)
    requires i < |ws| && ws[i].hotkey in lookup
    ensures var k := |ResolvedUids(ws[..i], lookup)|;
            && k < |ResolvedUids(ws, lookup)| == |ResolvedWeights(ws, lookup)|
            && ResolvedUids(ws, lookup)[k] == lookup[ws[i].hotkey] && ResolvedWeights(ws, lookup)[k] == ToU16(ws[i].weight)
  {
    ResolvedAlign(ws, lookup);
    ResolvedAlign(ws[..|ws| - 1], lookup);
    if i == |ws| - 1 {
    } else {
      ResolvedEntry(ws[..|ws| - 1], lookup, i);
      assert ws[..|ws| - 1][..i] == ws[..i];
    }
  }

  /** Each other assignment is listed by its hotkey, behind those before it. */
  lemma {:induction false} UnresolvedEntry(ws: seq<WeightAssignment>, lookup: map<string, u16>, i: nat)
    requires i < |ws| && ws[i].hotkey !in lookup
    ensures var k := |Unresolved(ws[..i], lookup)|;
            k < |Unresolved(ws, lookup)| && Unresolved(ws, lookup)[k] == ws[i].hotkey
  {
    if i == |ws| - 1 {
    } else {
      UnresolvedEntry(ws[..|ws| - 1], lookup, i);
      assert ws[..|ws| - 1][..i] == ws[..i];
    }
  }

  /** The fill adds one entry for UID 0 if the weights fall short and there is none, and otherwise no entry. */
  lemma FillShape(uids: seq<u64>, ws: seq<u16>)
    requires |uids| == |ws| && Sum(ws) < U32_SIZE
    ensures var (uids', ws') := Fill(uids, ws);
            && uids' == (if 0 !in uids && Sum(ws) < TARGET_SUM then uids + [0] else uids)
            && (uids == [] ==> ws' == [65535]) && (Sum(ws) >= TARGET_SUM ==> ws' == ws)
  {
    ExactWhenSmall(ws);
    var pos := FirstBurn(uids, 0);
    if pos < |uids| {
      assert uids[pos] in uids;
    }
  }

  /** Without a positive total there are no weights. */
  lemma NoScoresNoWeights(scores: seq<(string, real)>)
    ensures ScoresToWeights(scores) == [] <==> TotalScore(scores) <= 0.0
  {
  }
}
