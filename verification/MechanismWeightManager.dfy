/**
 * The per-mechanism weight manager: an in-memory commit-reveal (or direct) protocol guarded by the
 * last epoch recorded for each mechanism, over chain calls that may fail.
 */
module MechanismWeights {
  import opened Base
  import WS = WeightSubmission

  type CommitData = WS.CommitData
  type CallResult = WS.CallResult

  datatype Mode = CommitReveal | Direct

  datatype Pending = Pending(mechanismId: u8, data: CommitData, epoch: u64)

  /** Calls that reached the chain, epochs recorded as done, and resets of the record, in order. */
  datatype Event =
    | Committed(m: u8, epoch: u64, data: CommitData)
    | Revealed(m: u8, epoch: u64, data: CommitData)
    | SetDirectly(m: u8, epoch: u64, data: CommitData)
    | Recorded(m: u8, epoch: u64)
    | Reset

  datatype Manager = Manager(lastWeightEpoch: map<u8, u64>, pending: map<u8, Pending>, log: seq<Event>)

  const EMPTY := Manager(map[], map[], [])

  // ---------------------------------------------------------------- operations

  predicate HasSetWeights(last: map<u8, u64>, m: u8, epoch: u64) {
    m in last && last[m] >= epoch
  }

  function Call(w: Manager, e: Event, result: CallResult): Manager {
    if result.Rejected? then w else w.(log := w.log + [e])
  }

  function Record(w: Manager, m: u8, epoch: u64): Manager {
    w.(lastWeightEpoch := w.lastWeightEpoch[m := epoch], log := w.log + [Recorded(m, epoch)])
  }

  /** The commit leaves the pending map before its reveal is attempted. */
  function RevealPending(w: Manager, m: u8, result: CallResult): Manager
    requires m in w.pending
  {
    var p := w.pending[m];
    var w1 := Call(w.(pending := w.pending - {m}), Revealed(p.mechanismId, p.epoch, p.data), result);
    if result.Accepted? then Record(w1, p.mechanismId, p.epoch) else w1
  }

  function Submit(w: Manager, mode: Mode, m: u8, data: CommitData, epoch: u64, result: CallResult): Manager {
    if HasSetWeights(w.lastWeightEpoch, m, epoch) then w
    else if mode.Direct? then
      var w1 := Call(w, SetDirectly(m, epoch, data), result);
      if result.Accepted? then Record(w1, m, epoch) else w1
    else if m in w.pending then RevealPending(w, m, result)
    else
      var w1 := Call(w, Committed(m, epoch, data), result);
      if result.Accepted? then w1.(pending := w1.pending[m := Pending(m, data, epoch)]) else w1
  }

  /** Reveals from position `i` of the key list taken at the start; the first error ends the loop. */
  function RevealAll(w: Manager, ids: seq<u8>, results: seq<CallResult>, i: nat): Manager
    requires i <= |ids| == |results|
    decreases |ids| - i
  {
    if i == |ids| then w
    else if ids[i] !in w.pending then RevealAll(w, ids, results, i + 1)
    else
      var w1 := RevealPending(w, ids[i], results[i]);
      if results[i].Accepted? then RevealAll(w1, ids, results, i + 1) else w1
  }

  /** The loop runs to the end. */
  predicate RevealsAll(w: Manager, ids: seq<u8>, results: seq<CallResult>, i: nat)
    requires i <= |ids| == |results|
    decreases |ids| - i
  {
    i == |ids| ||
    if ids[i] !in w.pending then RevealsAll(w, ids, results, i + 1)
    else results[i].Accepted? && RevealsAll(RevealPending(w, ids[i], results[i]), ids, results, i + 1)
  }

  function ResetTracking(w: Manager): Manager {
    w.(lastWeightEpoch := map[], log := w.log + [Reset])
  }

  datatype Op =
    | DoSubmit(m: u8, data: CommitData, epoch: u64, result: CallResult)
    | DoRevealAll(ids: seq<u8>, results: seq<CallResult>)
    | DoReset

  predicate ValidOp(w: Manager, op: Op) {
    op.DoRevealAll? ==> Enumerates(op.ids, w.pending.Keys) && |op.ids| == |op.results|
  }

  function Exec(w: Manager, mode: Mode, op: Op): Manager
    requires ValidOp(w, op)
  {
    match op
    case DoSubmit(m, data, epoch, result) => Submit(w, mode, m, data, epoch, result)
    case DoRevealAll(ids, results) => RevealAll(w, ids, results, 0)
    case DoReset => ResetTracking(w)
  }

  predicate ValidRun(w: Manager, mode: Mode, ops: seq<Op>)
    decreases |ops|
  {
    ops == [] || (ValidOp(w, ops[0]) && ValidRun(Exec(w, mode, ops[0]), mode, ops[1..]))
  }

  function Run(w: Manager, mode: Mode, ops: seq<Op>): Manager
    requires ValidRun(w, mode, ops)
    decreases |ops|
  {
    if ops == [] then w else Run(Exec(w, mode, ops[0]), mode, ops[1..])
  }

  // ---------------------------------------------------------------- the implementation

  class MechanismWeightManager {
    var lastWeightEpoch: map<u8, u64>
    var pending: map<u8, Pending>
    var log: seq<Event>
    const mode: Mode

    ghost function Value(): Manager
      reads this
    {
      Manager(lastWeightEpoch, pending, log)
    }

    constructor (mode: Mode)
      ensures Value() == EMPTY && this.mode == mode
    {
      lastWeightEpoch, pending, log := map[], map[], [];
      this.mode := mode;
    }

    method SubmitMechanismWeights(m: u8, data: CommitData, epoch: u64, result: CallResult)
      modifies this
      ensures Value() == Submit(old(Value()), mode, m, data, epoch, result)
    {
      if m in lastWeightEpoch && lastWeightEpoch[m] >= epoch {
        return;
      }
      if mode.Direct? {
        log := log + if result.Rejected? then [] else [SetDirectly(m, epoch, data)];
        if result.Accepted? {
          lastWeightEpoch := lastWeightEpoch[m := epoch];
          log := log + [Recorded(m, epoch)];
        }
      } else if m in pending {
        Reveal(m, result);
      } else {
        log := log + if result.Rejected? then [] else [Committed(m, epoch, data)];
        if result.Accepted? {
          pending := pending[m := Pending(m, data, epoch)];
        }
      }
    }

    method Reveal(m: u8, result: CallResult)
      requires m in pending
      modifies this
      ensures Value() == RevealPending(old(Value()), m, result)
    {
      var p := pending[m];
      pending := pending - {m};
      log := log + if result.Rejected? then [] else [Revealed(p.mechanismId, p.epoch, p.data)];
      if result.Accepted? {
        lastWeightEpoch := lastWeightEpoch[p.mechanismId := p.epoch];
        log := log + [Recorded(p.mechanismId, p.epoch)];
      }
    }

    method RevealAllPending(ids: seq<u8>, results: seq<CallResult>) returns (ok: bool)
      requires ValidOp(Value(), DoRevealAll(ids, results))
      modifies this
      ensures Value() == RevealAll(old(Value()), ids, results, 0)
      ensures ok <==> RevealsAll(old(Value()), ids, results, 0)
      ensures ok ==> pending == map[]
    {
      for i := 0 to |ids|
        invariant RevealAll(Value(), ids, results, i) == RevealAll(old(Value()), ids, results, 0)
        invariant RevealsAll(Value(), ids, results, i) == RevealsAll(old(Value()), ids, results, 0)
        invariant forall m :: m in pending ==> m in ids[i..]
      {
        if ids[i] in pending {
          Reveal(ids[i], results[i]);
          if !results[i].Accepted? {
            return false;
          }
        }
      }
      ok := true;
    }

    method ResetEpochTracking()
      modifies this
      ensures Value() == ResetTracking(old(Value()))
    {
      lastWeightEpoch := map[];
      log := log + [Reset];
    }
  }

  // ---------------------------------------------------------------- what the log may look like

  /** The last commit or reveal for `m` that reached the chain. */
  function LastTouch(log: seq<Event>, m: u8): Option<Event> {
    if log == [] then None
    else
      var last := log[|log| - 1];
      if (last.Committed? || last.Revealed?) && last.m == m then Some(last) else LastTouch(log[..|log| - 1], m)
  }

  /** The epoch last recorded for `m` since the record was last reset. */
  function LastRecorded(log: seq<Event>, m: u8): Option<u64> {
    if log == [] then None
    else
      var last := log[|log| - 1];
      if last.Reset? then None
      else if last.Recorded? && last.m == m then Some(last.epoch)
      else LastRecorded(log[..|log| - 1], m)
  }

  ghost predicate MayFollow(log: seq<Event>, e: Event) {
    match e
    case Revealed(m, epoch, data) => LastTouch(log, m) == Some(Committed(m, epoch, data))
    case Recorded(m, epoch) => LastRecorded(log, m).Some? ==> LastRecorded(log, m).value < epoch
    case _ => true
  }

  ghost predicate Sound(log: seq<Event>) {
    log == [] || (Sound(log[..|log| - 1]) && MayFollow(log[..|log| - 1], log[|log| - 1]))
  }

  ghost predicate Inv(w: Manager, mode: Mode) {
    && Sound(w.log)
    && (mode.Direct? ==> w.pending == map[])
    && (forall m :: LastRecorded(w.log, m) == if m in w.lastWeightEpoch then Some(w.lastWeightEpoch[m]) else None)
    && (forall m :: m in w.pending ==> Current(w, m))
  }

  /** A pending commit is its mechanism's latest chain event, and newer than anything recorded. */
  ghost predicate Current(w: Manager, m: u8)
    requires m in w.pending
  {
    var p := w.pending[m];
    && p.mechanismId == m
    && LastTouch(w.log, m) == Some(Committed(m, p.epoch, p.data))
    && (m in w.lastWeightEpoch ==> w.lastWeightEpoch[m] < p.epoch)
  }

  lemma Append(log: seq<Event>, e: Event)
    ensures Sound(log) && MayFollow(log, e) ==> Sound(log + [e])
    ensures forall m :: LastTouch(log + [e], m) ==
                        if (e.Committed? || e.Revealed?) && e.m == m then Some(e) else LastTouch(log, m)
    ensures forall m :: LastRecorded(log + [e], m) ==
                        if e.Reset? then None else if e.Recorded? && e.m == m then Some(e.epoch) else LastRecorded(log, m)
  {
    assert (log + [e])[..|log + [e]| - 1] == log;
  }

  lemma RevealKeeps(w: Manager, mode: Mode, m: u8, result: CallResult)
    requires Inv(w, mode) && m in w.pending
    ensures Inv(RevealPending(w, m, result), mode)
  {
    var p := w.pending[m];
    assert Current(w, m);
    var e := Revealed(p.mechanismId, p.epoch, p.data);
    Append(w.log, e);
    Append(w.log + [e], Recorded(m, p.epoch));
    var w' := RevealPending(w, m, result);
    forall k | k in w'.pending ensures Current(w', k) {
      assert Current(w, k);
    }
  }

  lemma DirectKeeps(w: Manager, m: u8, data: CommitData, epoch: u64, result: CallResult)
    requires Inv(w, Direct)
    ensures Inv(Submit(w, Direct, m, data, epoch, result), Direct)
  {
    var e := SetDirectly(m, epoch, data);
    Append(w.log, e);
    Append(w.log + [e], Recorded(m, epoch));
  }

  lemma CommitKeeps(w: Manager, m: u8, data: CommitData, epoch: u64, result: CallResult)
    requires Inv(w, CommitReveal) && m !in w.pending
    ensures Inv(Submit(w, CommitReveal, m, data, epoch, result), CommitReveal)
  {
    Append(w.log, Committed(m, epoch, data));
    var w' := Submit(w, CommitReveal, m, data, epoch, result);
    forall k | k in w'.pending ensures Current(w', k) {
      assert k in w.pending ==> Current(w, k);
    }
  }

  lemma SubmitKeeps(w: Manager, mode: Mode, m: u8, data: CommitData, epoch: u64, result: CallResult)
    requires Inv(w, mode)
    ensures Inv(Submit(w, mode, m, data, epoch, result), mode)
  {
    if mode.Direct? {
      DirectKeeps(w, m, data, epoch, result);
    } else if m !in w.pending {
      CommitKeeps(w, m, data, epoch, result);
    } else if !HasSetWeights(w.lastWeightEpoch, m, epoch) {
      RevealKeeps(w, mode, m, result);
    }
  }

  lemma {:induction false} RevealAllKeeps(w: Manager, mode: Mode, ids: seq<u8>, results: seq<CallResult>, i: nat)
    requires Inv(w, mode) && i <= |ids| == |results|
    ensures Inv(RevealAll(w, ids, results, i), mode)
    decreases |ids| - i
  {
    if i == |ids| {
    } else {
      if ids[i] !in w.pending {
        RevealAllKeeps(w, mode, ids, results, i + 1);
      } else {
        RevealKeeps(w, mode, ids[i], results[i]);
        if results[i].Accepted? {
          RevealAllKeeps(RevealPending(w, ids[i], results[i]), mode, ids, results, i + 1);
        }
      }
    }
  }

  lemma ResetKeeps(w: Manager, mode: Mode)
    requires Inv(w, mode)
    ensures Inv(ResetTracking(w), mode)
  {
    Append(w.log, Reset);
    forall k | k in w.pending ensures Current(ResetTracking(w), k) {
      assert Current(w, k);
    }
  }

  lemma {:induction false} RunKeeps(w: Manager, mode: Mode, ops: seq<Op>)
    requires Inv(w, mode) && ValidRun(w, mode, ops)
    ensures Inv(Run(w, mode, ops), mode)
    decreases |ops|
  {
    if ops == [] {
    } else {
      match ops[0] {
        case DoSubmit(m, data, epoch, result) => SubmitKeeps(w, mode, m, data, epoch, result);
        case DoRevealAll(ids, results) => RevealAllKeeps(w, mode, ids, results, 0);
        case DoReset => ResetKeeps(w, mode);
      }
      RunKeeps(Exec(w, mode, ops[0]), mode, ops[1..]);
    }
  }

  // ---------------------------------------------------------------- reading the log

  lemma {:induction false} SoundAt(log: seq<Event>, i: nat)
    requires Sound(log) && i < |log|
    ensures Sound(log[..i]) && MayFollow(log[..i], log[i])
  {
    if i < |log| - 1 {
      SoundAt(log[..|log| - 1], i);
      assert log[..|log| - 1][..i] == log[..i];
    }
  }

  lemma {:induction false} TouchPosition(log: seq<Event>, m: u8) returns (j: nat)
    requires LastTouch(log, m).Some?
    ensures j < |log| && log[j] == LastTouch(log, m).value
    ensures forall k :: j < k < |log| ==> !((log[k].Committed? || log[k].Revealed?) && log[k].m == m)
  {
    var last := log[|log| - 1];
    if (last.Committed? || last.Revealed?) && last.m == m {
      j := |log| - 1;
    } else {
      j := TouchPosition(log[..|log| - 1], m);
    }
  }

  /** Without a reset in between, what was recorded before is below everything recorded later. */
  lemma {:induction false} RecordedGrows(log: seq<Event>, i: nat)
    requires Sound(log) && i < |log| && log[i].Recorded?
    requires forall k :: i < k < |log| ==> !log[k].Reset?
    ensures LastRecorded(log, log[i].m).Some? && log[i].epoch <= LastRecorded(log, log[i].m).value
    decreases |log|
  {
    var init := log[..|log| - 1];
    if i < |log| - 1 {
      RecordedGrows(init, i);
      assert MayFollow(init, log[|log| - 1]);
    }
  }

  /**
   * Main theorem, for every run in a fixed mode with failing chain calls: every reveal repeats its
   * mechanism's most recent commit, with no other commit or reveal of that mechanism in between (so
   * no commit is revealed twice); and between resets the epochs recorded for a mechanism strictly increase.
   */
  lemma EveryRun(mode: Mode, ops: seq<Op>)
    requires ValidRun(EMPTY, mode, ops)
    ensures var log := Run(EMPTY, mode, ops).log;
            forall i :: 0 <= i < |log| && log[i].Revealed? ==> FreshReveal(log, i)
    ensures var log := Run(EMPTY, mode, ops).log;
            forall i, j :: 0 <= i < j < |log| && SamePeriod(log, i, j) ==> log[i].epoch < log[j].epoch
  {
    RunKeeps(EMPTY, mode, ops);
    var log := Run(EMPTY, mode, ops).log;
    forall i | 0 <= i < |log| && log[i].Revealed? ensures FreshReveal(log, i) {
      SoundAt(log, i);
      var j := TouchPosition(log[..i], log[i].m);
      assert log[..i][j] == log[j];
      assert forall k :: j < k < i ==> log[..i][k] == log[k];
    }
    forall i, j | 0 <= i < j < |log| && SamePeriod(log, i, j)
      ensures log[i].epoch < log[j].epoch
    {
      SoundAt(log, j);
      assert log[..j][i] == log[i];
      RecordedGrows(log[..j], i);
    }
  }

  /** Both positions record an epoch for the same mechanism, and no reset lies between them. */
  ghost predicate SamePeriod(log: seq<Event>, i: nat, j: nat)
    requires i < j < |log|
  {
    log[i].Recorded? && log[j].Recorded? && log[i].m == log[j].m && forall k :: i < k < j ==> !log[k].Reset?
  }

  ghost predicate FreshReveal(log: seq<Event>, i: nat)
    requires i < |log| && log[i].Revealed?
  {
    exists j :: 0 <= j < i && log[j] == Committed(log[i].m, log[i].epoch, log[i].data) &&
                forall k :: j < k < i ==> !((log[k].Committed? || log[k].Revealed?) && log[k].m == log[i].m)
  }

  /** A direct submission that was accepted counts for its epoch: any further one for it is skipped. */
  lemma DirectOncePerEpoch(w: Manager, m: u8, data: CommitData, epoch: u64, later: CommitData, result: CallResult)
    requires !HasSetWeights(w.lastWeightEpoch, m, epoch)
    ensures var w1 := Submit(w, Direct, m, data, epoch, WS.Accepted);
            && w1.log == w.log + [SetDirectly(m, epoch, data), Recorded(m, epoch)]
            && Submit(w1, Direct, m, later, epoch, result) == w1
  {
    assert (w.log + [SetDirectly(m, epoch, data)]) + [Recorded(m, epoch)] == w.log + [SetDirectly(m, epoch, data), Recorded(m, epoch)];
  }

  /**
   * Two accepted submissions commit and then reveal the first one's weights, whatever the second one
   * carries; after that the epoch counts as done and a third is skipped.
   */
  lemma CommitThenReveal(w: Manager, m: u8, data: CommitData, epoch: u64, later: CommitData, last: CommitData,
        result: CallResult)
    requires m !in w.pending && !HasSetWeights(w.lastWeightEpoch, m, epoch)
    ensures var w2 := Submit(Submit(w, CommitReveal, m, data, epoch, WS.Accepted), CommitReveal, m, later, epoch, WS.Accepted);
            && w2.log == w.log + [Committed(m, epoch, data), Revealed(m, epoch, data), Recorded(m, epoch)]
            && w2.pending == w.pending
            && Submit(w2, CommitReveal, m, last, epoch, result) == w2
  {
    var w1 := Submit(w, CommitReveal, m, data, epoch, WS.Accepted);
    var c, r, d := Committed(m, epoch, data), Revealed(m, epoch, data), Recorded(m, epoch);
    assert ((w.log + [c]) + [r]) + [d] == w.log + [c, r, d];
    assert w1.pending - {m} == w.pending;
  }

  // ---------------------------------------------------------------- when the mode changes between calls

  /** Every reveal repeats the last commit of its mechanism. */
  ghost predicate FreshLog(log: seq<Event>) {
    log == [] || (FreshLog(log[..|log| - 1]) && (log[|log| - 1].Revealed? ==> MayFollow(log[..|log| - 1], log[|log| - 1])))
  }

  /** Between resets every epoch recorded is above the one before it. */
  ghost predicate RisingLog(log: seq<Event>) {
    log == [] || (RisingLog(log[..|log| - 1]) && (log[|log| - 1].Recorded? ==> MayFollow(log[..|log| - 1], log[|log| - 1])))
  }

  /** What holds whatever the modes: everything but the order of epochs. */
  ghost predicate MixedInv(w: Manager) {
    && FreshLog(w.log)
    && (forall m :: LastRecorded(w.log, m) == if m in w.lastWeightEpoch then Some(w.lastWeightEpoch[m]) else None)
    && (forall m :: m in w.pending ==>
          w.pending[m].mechanismId == m && LastTouch(w.log, m) == Some(Committed(m, w.pending[m].epoch, w.pending[m].data)))
  }

  /** A pending commit is no newer than what was recorded for its mechanism since. */
  predicate Overtaken(w: Manager, m: u8) {
    m in w.pending && m in w.lastWeightEpoch && w.lastWeightEpoch[m] >= w.pending[m].epoch
  }

  predicate RevealsInOrder(w: Manager, ids: seq<u8>, results: seq<CallResult>, i: nat)
    requires i <= |ids| == |results|
    decreases |ids| - i
  {
    i == |ids| ||
    (if ids[i] !in w.pending then RevealsInOrder(w, ids, results, i + 1)
     else results[i].Accepted? ==>
       !Overtaken(w, ids[i]) && RevealsInOrder(RevealPending(w, ids[i], results[i]), ids, results, i + 1))
  }

  /** The call reveals no overtaken commit. */
  predicate InOrder(w: Manager, mode: Mode, op: Op)
    requires ValidOp(w, op)
  {
    match op
    case DoSubmit(m, _, epoch, result) =>
      mode.CommitReveal? && m in w.pending && !HasSetWeights(w.lastWeightEpoch, m, epoch) && result.Accepted? ==> !Overtaken(w, m)
    case DoRevealAll(ids, results) => RevealsInOrder(w, ids, results, 0)
    case DoReset => true
  }

  lemma AppendMixed(log: seq<Event>, e: Event)
    ensures FreshLog(log + [e]) <==> FreshLog(log) && (e.Revealed? ==> MayFollow(log, e))
    ensures RisingLog(log + [e]) <==> RisingLog(log) && (e.Recorded? ==> MayFollow(log, e))
  {
    assert (log + [e])[..|log + [e]| - 1] == log;
  }

  lemma RevealMixed(w: Manager, m: u8, result: CallResult)
    requires MixedInv(w) && m in w.pending
    ensures var w' := RevealPending(w, m, result);
            && MixedInv(w')
            && (RisingLog(w'.log) <==> RisingLog(w.log) && (result.Accepted? ==> !Overtaken(w, m)))
  {
    var p := w.pending[m];
    var e := Revealed(m, p.epoch, p.data);
    Append(w.log, e);
    AppendMixed(w.log, e);
    Append(w.log + [e], Recorded(m, p.epoch));
    AppendMixed(w.log + [e], Recorded(m, p.epoch));
  }

  lemma SubmitMixed(w: Manager, mode: Mode, m: u8, data: CommitData, epoch: u64, result: CallResult)
    requires MixedInv(w)
    ensures var w' := Submit(w, mode, m, data, epoch, result);
            MixedInv(w') && (RisingLog(w'.log) <==> RisingLog(w.log) && InOrder(w, mode, DoSubmit(m, data, epoch, result)))
  {
    if HasSetWeights(w.lastWeightEpoch, m, epoch) {
    } else if mode.Direct? {
      var e := SetDirectly(m, epoch, data);
      Append(w.log, e);
      AppendMixed(w.log, e);
      Append(w.log + [e], Recorded(m, epoch));
      AppendMixed(w.log + [e], Recorded(m, epoch));
    } else if m in w.pending {
      RevealMixed(w, m, result);
    } else {
      Append(w.log, Committed(m, epoch, data));
      AppendMixed(w.log, Committed(m, epoch, data));
    }
  }

  lemma {:induction false} RevealAllMixed(w: Manager, ids: seq<u8>, results: seq<CallResult>, i: nat)
    requires MixedInv(w) && i <= |ids| == |results|
    ensures var w' := RevealAll(w, ids, results, i);
            MixedInv(w') && (RisingLog(w'.log) <==> RisingLog(w.log) && RevealsInOrder(w, ids, results, i))
    decreases |ids| - i
  {
    if i == |ids| {
    } else if ids[i] !in w.pending {
      RevealAllMixed(w, ids, results, i + 1);
    } else {
      RevealMixed(w, ids[i], results[i]);
      if results[i].Accepted? {
        RevealAllMixed(RevealPending(w, ids[i], results[i]), ids, results, i + 1);
      }
    }
  }

  lemma ExecMixed(w: Manager, mode: Mode, op: Op)
    requires MixedInv(w) && ValidOp(w, op)
    ensures MixedInv(Exec(w, mode, op))
    ensures RisingLog(Exec(w, mode, op).log) <==> RisingLog(w.log) && InOrder(w, mode, op)
  {
    match op
    case DoSubmit(m, data, epoch, result) => SubmitMixed(w, mode, m, data, epoch, result);
    case DoRevealAll(ids, results) => RevealAllMixed(w, ids, results, 0);
    case DoReset =>
      Append(w.log, Reset);
      AppendMixed(w.log, Reset);
  }

  /** Each call may find the client in another mode. */
  predicate ValidMixedRun(w: Manager, ops: seq<(Mode, Op)>)
    decreases |ops|
  {
    ops == [] || (ValidOp(w, ops[0].1) && ValidMixedRun(Exec(w, ops[0].0, ops[0].1), ops[1..]))
  }

  function MixedRun(w: Manager, ops: seq<(Mode, Op)>): Manager
    requires ValidMixedRun(w, ops)
    decreases |ops|
  {
    if ops == [] then w else MixedRun(Exec(w, ops[0].0, ops[0].1), ops[1..])
  }

  predicate AllInOrder(w: Manager, ops: seq<(Mode, Op)>)
    requires ValidMixedRun(w, ops)
    decreases |ops|
  {
    ops == [] || (InOrder(w, ops[0].0, ops[0].1) && AllInOrder(Exec(w, ops[0].0, ops[0].1), ops[1..]))
  }

  lemma {:induction false} MixedRunRises(w: Manager, ops: seq<(Mode, Op)>)
    requires MixedInv(w) && ValidMixedRun(w, ops)
    ensures MixedInv(MixedRun(w, ops))
    ensures RisingLog(MixedRun(w, ops).log) <==> RisingLog(w.log) && AllInOrder(w, ops)
    decreases |ops|
  {
    if ops == [] {
    } else {
      ExecMixed(w, ops[0].0, ops[0].1);
      MixedRunRises(Exec(w, ops[0].0, ops[0].1), ops[1..]);
    }
  }

  // ---------------------------------------------------------------- the same, read off the log

  lemma {:induction false} FreshAt(log: seq<Event>, i: nat)
    requires FreshLog(log) && i < |log| && log[i].Revealed?
    ensures FreshReveal(log, i)
    decreases |log|
  {
    var init := log[..|log| - 1];
    if i == |log| - 1 {
      var j := TouchPosition(init, log[i].m);
      assert init[j] == log[j] && forall k :: j < k < i ==> init[k] == log[k];
    } else {
      FreshAt(init, i);
      assert forall k :: 0 <= k < |init| ==> init[k] == log[k];
    }
  }

  lemma {:induction false} RecordPosition(log: seq<Event>, m: u8) returns (i: nat)
    requires LastRecorded(log, m).Some?
    ensures i < |log| && log[i] == Recorded(m, LastRecorded(log, m).value)
    ensures forall k :: i < k < |log| ==> !log[k].Reset?
  {
    var last := log[|log| - 1];
    if last.Recorded? && last.m == m {
      i := |log| - 1;
    } else {
      i := RecordPosition(log[..|log| - 1], m);
    }
  }

  lemma {:induction false} RisingGrows(log: seq<Event>, i: nat)
    requires RisingLog(log) && i < |log| && log[i].Recorded? && forall k :: i < k < |log| ==> !log[k].Reset?
    ensures LastRecorded(log, log[i].m).Some? && log[i].epoch <= LastRecorded(log, log[i].m).value
    decreases |log|
  {
    var init := log[..|log| - 1];
    if i < |log| - 1 {
      RisingGrows(init, i);
      assert log[|log| - 1].Recorded? ==> MayFollow(init, log[|log| - 1]);
    }
  }

  ghost predicate EpochsRise(log: seq<Event>) {
    forall i, j :: 0 <= i < j < |log| && SamePeriod(log, i, j) ==> log[i].epoch < log[j].epoch
  }

  /** The two ways of saying that epochs rise. */
  lemma {:induction false} RisingMeans(log: seq<Event>)
    ensures RisingLog(log) <==> EpochsRise(log)
  {
    if log == [] {
    } else {
      var init, n := log[..|log| - 1], |log| - 1;
      RisingMeans(init);
      assert forall k :: 0 <= k < n ==> init[k] == log[k];
      InitPeriods(log);
      if RisingLog(log) {
        forall i | 0 <= i < n && SamePeriod(log, i, n) ensures log[i].epoch < log[n].epoch {
          RisingGrows(init, i);
        }
      } else if EpochsRise(init) {
        var i := RecordPosition(init, log[n].m);
        assert SamePeriod(log, i, n);
      }
    }
  }

  /** Periods of a log without its last event are periods of the log. */
  lemma InitPeriods(log: seq<Event>)
    requires log != []
    ensures var init, n := log[..|log| - 1], |log| - 1;
            EpochsRise(log) <==> EpochsRise(init) && forall i :: 0 <= i < n && SamePeriod(log, i, n) ==> log[i].epoch < log[n].epoch
  {
    var init, n := log[..|log| - 1], |log| - 1;
    forall i, j | 0 <= i < j < n ensures SamePeriod(init, i, j) == SamePeriod(log, i, j) {
      assert forall k :: 0 <= k < n ==> init[k] == log[k];
    }
  }

  /**
   * With the mode chosen anew for every call: every reveal still repeats the latest commit of its mechanism;
   * and the epochs recorded between resets strictly increase if and only if no call reveals a commit that
   * was overtaken, which can be told before the call.
   */
  lemma EveryMixedRun(ops: seq<(Mode, Op)>)
    requires ValidMixedRun(EMPTY, ops)
    ensures var log := MixedRun(EMPTY, ops).log;
            && (forall i :: 0 <= i < |log| && log[i].Revealed? ==> FreshReveal(log, i))
            && (EpochsRise(log) <==> AllInOrder(EMPTY, ops))
  {
    MixedRunRises(EMPTY, ops);
    var log := MixedRun(EMPTY, ops).log;
    RisingMeans(log);
    forall i | 0 <= i < |log| && log[i].Revealed? ensures FreshReveal(log, i) {
      FreshAt(log, i);
    }
  }

  /** Such a run: a direct submission made while a commit is pending is later overtaken. */
  lemma ModeSwitchReordersEpochs(data: CommitData)
    ensures var w1 := Submit(EMPTY, CommitReveal, 1, data, 5, WS.Accepted);
            var w2 := Submit(w1, Direct, 1, data, 7, WS.Accepted);
            var w3 := Submit(w2, CommitReveal, 1, data, 8, WS.Accepted);
            w2.lastWeightEpoch == map[1 := 7] && w3.lastWeightEpoch == map[1 := 5]
  {
  }

  // ---------------------------------------------------------------- what goes through

  /**
   * An accepted submission goes through if and only if nothing was recorded for the mechanism since the last
   * reset or what was recorded is of an earlier epoch. What it then adds to the log: the weights and the
   * record, the pending commit's reveal and the record, or a commit.
   */
  lemma AcceptedSubmission(w: Manager, mode: Mode, m: u8, data: CommitData, epoch: u64)
    requires Inv(w, mode)
    ensures var through := LastRecorded(w.log, m).None? || LastRecorded(w.log, m).value < epoch;
            var w' := Submit(w, mode, m, data, epoch, WS.Accepted);
            if !through then w' == w
            else if mode.Direct? then
              w'.log == w.log + [SetDirectly(m, epoch, data), Recorded(m, epoch)] && w'.pending == w.pending
            else if m in w.pending then
              && w'.log == w.log + [Revealed(m, w.pending[m].epoch, w.pending[m].data), Recorded(m, w.pending[m].epoch)]
              && w'.pending == w.pending - {m}
            else
              w'.log == w.log + [Committed(m, epoch, data)] && w'.pending == w.pending[m := Pending(m, data, epoch)]
  {
    assert LastRecorded(w.log, m) == if m in w.lastWeightEpoch then Some(w.lastWeightEpoch[m]) else None;
    if m in w.pending {
      assert Current(w, m);
      var r, d := Revealed(m, w.pending[m].epoch, w.pending[m].data), Recorded(m, w.pending[m].epoch);
      assert (w.log + [r]) + [d] == w.log + [r, d];
    }
    assert (w.log + [SetDirectly(m, epoch, data)]) + [Recorded(m, epoch)] == w.log + [SetDirectly(m, epoch, data), Recorded(m, epoch)];
  }

  /** A submission that is not accepted records nothing and remembers nothing; a commit whose reveal failed is gone. */
  lemma FailedSubmission(w: Manager, mode: Mode, m: u8, data: CommitData, epoch: u64, result: CallResult)
    requires Inv(w, mode) && !result.Accepted?
    ensures var w' := Submit(w, mode, m, data, epoch, result);
            && w'.lastWeightEpoch == w.lastWeightEpoch && (w'.pending == w.pending || w'.pending == w.pending - {m})
            && (result.Rejected? ==> w'.log == w.log)
  {
  }

  /** A reset forgets every record and no pending commit. */
  lemma ResetOpens(w: Manager, m: u8)
    ensures ResetTracking(w).pending == w.pending && LastRecorded(ResetTracking(w).log, m).None?
  {
    Append(w.log, Reset);
  }

  /** A reveal of everything pending in which every call is accepted sends and records each pending commit. */
  lemma {:induction false} RevealAllSends(w: Manager, ids: seq<u8>, results: seq<CallResult>, i: nat, k: nat)
    requires i <= k < |ids| == |results| && Distinct(ids) && ids[k] in w.pending
    requires forall m :: m in w.pending ==> w.pending[m].mechanismId == m
    requires forall j :: 0 <= j < |results| ==> results[j].Accepted?
    ensures var w', p := RevealAll(w, ids, results, i), w.pending[ids[k]];
            && w.log <= w'.log
            && Revealed(ids[k], p.epoch, p.data) in w'.log[|w.log|..] && Recorded(ids[k], p.epoch) in w'.log[|w.log|..]
    decreases |ids| - i
  {
    var w' := RevealAll(w, ids, results, i);
    if ids[i] in w.pending {
      var p := w.pending[ids[i]];
      var w1 := RevealPending(w, ids[i], results[i]);
      var r, d := Revealed(ids[i], p.epoch, p.data), Recorded(ids[i], p.epoch);
      assert w1.log == (w.log + [r]) + [d];
      RevealAllGrows(w1, ids, results, i + 1);
      if i == k {
        assert w'.log[|w.log|..][0] == r && w'.log[|w.log|..][1] == d;
      } else {
        RevealAllSends(w1, ids, results, i + 1, k);
        assert w'.log[|w.log|..] == [r, d] + w'.log[|w1.log|..];
      }
    } else {
      RevealAllSends(w, ids, results, i + 1, k);
    }
  }

  lemma {:induction false} RevealAllGrows(w: Manager, ids: seq<u8>, results: seq<CallResult>, i: nat)
    requires i <= |ids| == |results|
    ensures w.log <= RevealAll(w, ids, results, i).log
    decreases |ids| - i
  {
    if i == |ids| {
    } else if ids[i] !in w.pending {
      RevealAllGrows(w, ids, results, i + 1);
    } else if results[i].Accepted? {
      RevealAllGrows(RevealPending(w, ids[i], results[i]), ids, results, i + 1);
    }
  }

  /** An earlier pending commit of the list was not accepted. */
  ghost predicate StoppedBefore(w: Manager, ids: seq<u8>, results: seq<CallResult>, i: nat, k: nat)
    requires i <= k < |ids| == |results|
  {
    exists j :: i <= j < k && ids[j] in w.pending && !results[j].Accepted?
  }

  /** The first error ends a reveal of everything: exactly the commits after it are still pending, and unchanged. */
  lemma {:induction false} RevealAllStops(w: Manager, ids: seq<u8>, results: seq<CallResult>, i: nat, k: nat)
    requires i <= k < |ids| == |results| && Distinct(ids) && ids[k] in w.pending
    ensures var w' := RevealAll(w, ids, results, i);
            && (ids[k] in w'.pending <==> StoppedBefore(w, ids, results, i, k))
            && (ids[k] in w'.pending ==> w'.pending[ids[k]] == w.pending[ids[k]])
    decreases |ids| - i
  {
    if i == k {
      RevealAllShrinks(RevealPending(w, ids[i], results[i]), ids, results, i + 1, ids[k]);
    } else if ids[i] !in w.pending {
      RevealAllStops(w, ids, results, i + 1, k);
    } else if results[i].Accepted? {
      var w1 := RevealPending(w, ids[i], results[i]);
      RevealAllStops(w1, ids, results, i + 1, k);
      assert StoppedBefore(w1, ids, results, i + 1, k) <==> StoppedBefore(w, ids, results, i, k);
    }
  }

  /** It runs to the end if and only if every call is accepted. */
  lemma {:induction false} RevealsAllExactly(w: Manager, ids: seq<u8>, results: seq<CallResult>, i: nat)
    requires i <= |ids| == |results| && Distinct(ids) && forall j :: i <= j < |ids| ==> ids[j] in w.pending
    ensures RevealsAll(w, ids, results, i) <==> forall j :: i <= j < |ids| ==> results[j].Accepted?
    decreases |ids| - i
  {
    if i == |ids| {
    } else if results[i].Accepted? {
      RevealsAllExactly(RevealPending(w, ids[i], results[i]), ids, results, i + 1);
    }
  }

  lemma {:induction false} RevealAllShrinks(w: Manager, ids: seq<u8>, results: seq<CallResult>, i: nat, m: u8)
    requires i <= |ids| == |results| && m !in w.pending
    ensures m !in RevealAll(w, ids, results, i).pending
    decreases |ids| - i
  {
    if i == |ids| {
    } else if ids[i] !in w.pending {
      RevealAllShrinks(w, ids, results, i + 1, m);
    } else if results[i].Accepted? {
      RevealAllShrinks(RevealPending(w, ids[i], results[i]), ids, results, i + 1, m);
    }
  }
}
