/**
 * Safety of the weight submitter over every run: failing chain calls, any drain order, and a crash
 * and restart between any two effects. The proof follows one submission `x` at a time.
 */
module WeightSubmissionSafety {
  import opened Base
  import opened SaltCodec
  import opened WeightSubmission

  // ---------------------------------------------------------------- counting chain events

  function Count(x: ChainEvent, chain: seq<ChainEvent>): nat {
    if chain == [] then 0
    else Count(x, chain[..|chain| - 1]) + if chain[|chain| - 1] == x then 1 else 0
  }

  /**
   * At every moment of the chain's history, no submission (target, uids, weights, salt and version
   * key together) has been revealed more often than it had been committed by then.
   */
  ghost predicate RevealsCovered(chain: seq<ChainEvent>) {
    forall x: Submission, k :: 0 <= k <= |chain| ==> Count(Revealed(x), chain[..k]) <= Count(Committed(x), chain[..k])
  }

  /** The same for one submission, along the chain. */
  ghost predicate Covered(x: Submission, chain: seq<ChainEvent>) {
    && Count(Revealed(x), chain) <= Count(Committed(x), chain)
    && (chain != [] ==> Covered(x, chain[..|chain| - 1]))
  }

  lemma {:induction false} CoveredAt(x: Submission, chain: seq<ChainEvent>, k: nat)
    requires Covered(x, chain) && k <= |chain|
    ensures Count(Revealed(x), chain[..k]) <= Count(Committed(x), chain[..k])
    decreases |chain|
  {
    if k == |chain| {
      assert chain[..k] == chain;
    } else {
      CoveredAt(x, chain[..|chain| - 1], k);
      assert chain[..|chain| - 1][..k] == chain[..k];
    }
  }

  lemma CountAppend(e: ChainEvent, chain: seq<ChainEvent>, last: ChainEvent)
    ensures Count(e, chain + [last]) == Count(e, chain) + if last == e then 1 else 0
  {
    assert (chain + [last])[..|chain + [last]| - 1] == chain;
  }

  lemma AppendEvent(x: Submission, chain: seq<ChainEvent>, e: ChainEvent)
    requires Covered(x, chain)
    requires e == Revealed(x) ==> Count(Revealed(x), chain) < Count(Committed(x), chain)
    ensures Covered(x, chain + [e])
  {
    assert (chain + [e])[..|chain + [e]| - 1] == chain;
    CountAppend(Revealed(x), chain, e);
    CountAppend(Committed(x), chain, e);
  }

  predicate InBatch(x: Submission, batch: seq<BatchEntry>) {
    batch != [] && (batch[|batch| - 1].ToCommit() == x || InBatch(x, batch[..|batch| - 1]))
  }

  lemma {:induction false} AppendBatch(x: Submission, chain: seq<ChainEvent>, batch: seq<BatchEntry>)
    requires Covered(x, chain)
    ensures Covered(x, chain + CommitEvents(batch))
    ensures Count(Revealed(x), chain + CommitEvents(batch)) == Count(Revealed(x), chain)
    ensures Count(Committed(x), chain + CommitEvents(batch)) >= Count(Committed(x), chain) + if InBatch(x, batch) then 1 else 0
  {
    if batch == [] {
      assert chain + [] == chain;
    } else {
      var init, last := batch[..|batch| - 1], batch[|batch| - 1];
      var longer, e := chain + CommitEvents(init), Committed(last.ToCommit());
      AppendBatch(x, chain, init);
      AppendEvent(x, longer, e);
      CountAppend(Committed(x), longer, e);
      CountAppend(Revealed(x), longer, e);
      assert chain + CommitEvents(batch) == longer + [e];
    }
  }

  // ---------------------------------------------------------------- the invariant

  ghost predicate Keyed(s: PersistedCommitState) {
    forall m :: m in s.pendingMechanismCommits ==> s.pendingMechanismCommits[m].mechanismId == m
  }

  /** `s` would reveal `x`. */
  predicate Holds(s: PersistedCommitState, x: Submission) {
    match x.target
    case Mechanism(m) => m in s.pendingMechanismCommits && s.pendingMechanismCommits[m].ToReveal() == x
    case Standard => s.pendingCommit.Some? && s.pendingCommit.value.ToReveal() == x
  }

  /** If `s` could still reveal `x`, then `x` was committed once more than it was revealed. */
  ghost predicate Owed(x: Submission, chain: seq<ChainEvent>, s: PersistedCommitState) {
    && Keyed(s)
    && (Holds(s, x) ==> Count(Revealed(x), chain) < Count(Committed(x), chain))
  }

  /** Holds between any two effects, so it also holds of what a crash leaves behind. */
  ghost predicate Safe(x: Submission, w: Node) {
    Covered(x, w.chain) && Owed(x, w.chain, w.state) && Owed(x, w.chain, Load(w.file))
  }

  /** `Safe` now and after each of the effects. */
  ghost predicate Throughout(x: Submission, w: Node, effects: seq<Effect>)
    decreases |effects|
  {
    Safe(x, w) && (effects != [] ==> Throughout(x, Apply(w, effects[0]), effects[1..]))
  }

  lemma Cons(x: Submission, w: Node, e: Effect, rest: seq<Effect>)
    requires Safe(x, w) && Throughout(x, Apply(w, e), rest)
    ensures Throughout(x, w, [e] + rest)
  {
    assert ([e] + rest)[1..] == rest;
  }

  /** A memory update followed by the write-through. */
  lemma ConsStore(x: Submission, w: Node, s: PersistedCommitState, rest: seq<Effect>)
    requires Safe(x, w) && Owed(x, w.chain, s)
    requires Throughout(x, w.(state := s, file := Some(s)), rest)
    ensures Throughout(x, w, [Remember(s), Persist] + rest)
  {
    Cons(x, w.(state := s), Persist, rest);
    Cons(x, w, Remember(s), [Persist] + rest);
    assert [Remember(s)] + ([Persist] + rest) == [Remember(s), Persist] + rest;
  }

  lemma {:induction false} ThroughoutPrefix(x: Submission, w: Node, effects: seq<Effect>, k: nat)
    requires Throughout(x, w, effects) && k <= |effects|
    ensures Safe(x, ApplyAll(w, effects[..k]))
    decreases k
  {
    if k == 0 {
    } else {
      ThroughoutPrefix(x, Apply(w, effects[0]), effects[1..], k - 1);
      assert effects[..k] == [effects[0]] + effects[1..][..k - 1];
      ApplyConcat(w, [effects[0]], effects[1..][..k - 1]);
      ApplyOne(w, effects[0]);
    }
  }

  // ---------------------------------------------------------------- each operation is safe throughout

  lemma SetEpochSafe(x: Submission, w: Node, epoch: u64)
    requires Safe(x, w)
    ensures Throughout(x, w, Effects(w, SetEpoch(epoch)))
  {
    if epoch != w.currentEpoch {
      var s := w.state.NewEpoch(epoch);
      ConsStore(x, w.(currentEpoch := epoch), s, []);
      Cons(x, w, EnterEpoch(epoch), [Remember(s), Persist] + []);
      assert [EnterEpoch(epoch)] + ([Remember(s), Persist] + []) == Effects(w, SetEpoch(epoch));
    }
  }

  lemma StandardRevealSafe(x: Submission, w: Node, result: CallResult)
    requires Safe(x, w) && w.state.pendingCommit.Some?
    ensures Throughout(x, w, StandardReveal(w.state, result))
  {
    var sub := w.state.pendingCommit.value.ToReveal();
    var s := w.state.(pendingCommit := None);
    var w1 := w.(state := s, file := Some(s));
    var call := OnChain(Landed(result, [Revealed(sub)]));
    RevealSafe(x, w1, sub, result);
    Cons(x, w1, call, []);
    ConsStore(x, w, s, [call] + []);
    assert [Remember(s), Persist] + ([call] + []) == StandardReveal(w.state, result);
  }

  /** Revealing something the node no longer holds anywhere, but that is owed once more. */
  lemma RevealSafe(x: Submission, w: Node, sub: Submission, result: CallResult)
    requires Safe(x, w)
    requires sub == x ==> !Holds(w.state, x) && !Holds(Load(w.file), x)
    requires sub == x ==> Count(Revealed(x), w.chain) < Count(Committed(x), w.chain)
    ensures Safe(x, Apply(w, OnChain(Landed(result, [Revealed(sub)]))))
  {
    if result.Rejected? {
      assert w.chain + [] == w.chain;
    } else {
      AppendEvent(x, w.chain, Revealed(sub));
      CountAppend(Revealed(x), w.chain, Revealed(sub));
      CountAppend(Committed(x), w.chain, Revealed(sub));
    }
  }

  /** A chain call, and when it is accepted a memory update with its write-through. */
  lemma CallThenStore(x: Submission, w: Node, call: Effect, accepted: bool, s: PersistedCommitState)
    requires call.OnChain? && Safe(x, w) && Safe(x, Apply(w, call))
    requires accepted ==> Owed(x, Apply(w, call).chain, s)
    ensures Throughout(x, w, [call] + if accepted then [Remember(s), Persist] else [])
  {
    if accepted {
      ConsStore(x, Apply(w, call), s, []);
      assert [Remember(s), Persist] + [] == [Remember(s), Persist];
    }
    Cons(x, w, call, if accepted then [Remember(s), Persist] else []);
  }

  lemma CommitLands(x: Submission, w: Node, sub: Submission)
    requires Safe(x, w)
    ensures var w' := Apply(w, OnChain([Committed(sub)]));
            && Safe(x, w')
            && (sub == x ==> Count(Revealed(x), w'.chain) < Count(Committed(x), w'.chain))
  {
    AppendEvent(x, w.chain, Committed(sub));
    CountAppend(Revealed(x), w.chain, Committed(sub));
    CountAppend(Committed(x), w.chain, Committed(sub));
  }

  lemma CommitStandardSafe(x: Submission, w: Node, p: Prepared, result: CallResult)
    requires Safe(x, w) && w.state.pendingCommit.None?
    ensures Throughout(x, w, Effects(w, SubmitStandard(Some(p), result)))
  {
    var sub := Submission(Standard, p.data);
    CommitLands(x, w, sub);
    SaltRoundTrip(p.data.salt);
    assert w.chain + [] == w.chain;
    CallThenStore(x, w, OnChain(Landed(result, [Committed(sub)])), result.Accepted?,
                  w.state.(pendingCommit := Some(StandardPending(p, w.currentEpoch))));
  }

  lemma {:induction false} InsertAllHolds(x: Submission, s: PersistedCommitState, batch: seq<BatchEntry>, epoch: u64)
    requires Keyed(s)
    ensures Keyed(AfterBatch(s, batch, epoch))
    ensures Holds(AfterBatch(s, batch, epoch), x) ==> Holds(s, x) || InBatch(x, batch)
  {
    if batch == [] {
    } else {
      var init, last := batch[..|batch| - 1], batch[|batch| - 1];
      InsertAllHolds(x, s, init, epoch);
      SaltRoundTrip(last.data.salt);
    }
  }

  lemma SubmitBatchSafe(x: Submission, w: Node, batch: seq<BatchEntry>, result: CallResult)
    requires Safe(x, w) && batch != []
    ensures Throughout(x, w, Effects(w, SubmitBatch(batch, result)))
  {
    BatchLands(x, w, batch, result);
    CallThenStore(x, w, OnChain(Landed(result, CommitEvents(batch))), result.Accepted?,
                  AfterBatch(w.state, batch, w.currentEpoch));
  }

  lemma BatchLands(x: Submission, w: Node, batch: seq<BatchEntry>, result: CallResult)
    requires Safe(x, w)
    ensures var w' := Apply(w, OnChain(Landed(result, CommitEvents(batch))));
            Safe(x, w') && (result.Accepted? ==> Owed(x, w'.chain, AfterBatch(w.state, batch, w.currentEpoch)))
  {
    AppendBatch(x, w.chain, batch);
    InsertAllHolds(x, w.state, batch, w.currentEpoch);
    EmptyRight(w.chain);
  }

  // ---------------------------------------------------------------- the batch reveal

  /** How many of the drained commits from position `i` on would reveal `x`. */
  function InFlight(x: Submission, commits: seq<PendingMechanismCommit>, i: nat): nat
    requires i <= |commits|
    decreases |commits| - i
  {
    if i == |commits| then 0 else (if commits[i].ToReveal() == x then 1 else 0) + InFlight(x, commits, i + 1)
  }

  /** A hash map's drain yields each pending commit once, so `x` is in flight at most once. */
  lemma {:induction false} DrainedOnce(x: Submission, s: PersistedCommitState, order: seq<u8>, i: nat)
    requires Keyed(s) && Enumerates(order, s.pendingMechanismCommits.Keys) && i <= |order|
    ensures var commits := Drained(s.pendingMechanismCommits, order);
            InFlight(x, commits, i) == if Holds(s, x) && x.target.Mechanism? && x.target.id in order[i..] then 1 else 0
    decreases |order| - i
  {
    if i == |order| {
    } else {
      DrainedOnce(x, s, order, i + 1);
      NextDrained(x, s, order, i);
    }
  }

  lemma NextDrained(x: Submission, s: PersistedCommitState, order: seq<u8>, i: nat)
    requires Keyed(s) && Enumerates(order, s.pendingMechanismCommits.Keys) && i < |order|
    ensures order[i] in s.pendingMechanismCommits
    ensures Drained(s.pendingMechanismCommits, order)[i].ToReveal() == x <==>
            Holds(s, x) && x.target.Mechanism? && x.target.id == order[i]
    ensures forall m :: m in order[i..] <==> m == order[i] || m in order[i + 1..]
    ensures order[i] !in order[i + 1..]
  {
    assert order[i] in order;
    assert order[i..] == [order[i]] + order[i + 1..];
    assert Drained(s.pendingMechanismCommits, order)[i] == s.pendingMechanismCommits[order[i]];
  }

  /**
   * After the drain was persisted: neither memory nor file holds mechanism commits, and `flight` more
   * reveals of `x` are owed.
   */
  ghost predicate Revealing(x: Submission, w: Node, flight: nat) {
    && Safe(x, w)
    && (x.target.Mechanism? ==> !Holds(w.state, x) && !Holds(Load(w.file), x))
    && Count(Revealed(x), w.chain) + flight <= Count(Committed(x), w.chain)
  }

  lemma RevealStep(x: Submission, w: Node, sub: Submission, result: CallResult, later: nat)
    requires sub.target.Mechanism?
    requires Revealing(x, w, later + if sub == x then 1 else 0)
    ensures Revealing(x, Apply(w, OnChain(Landed(result, [Revealed(sub)]))), later)
  {
    RevealSafe(x, w, sub, result);
    CountAppend(Revealed(x), w.chain, Revealed(sub));
    CountAppend(Committed(x), w.chain, Revealed(sub));
    assert w.chain + [] == w.chain;
  }

  /** `rest` is what follows the reveals: nothing after an error, otherwise the bookkeeping. */
  lemma {:induction false} RevealCallsSafe(x: Submission, w: Node, commits: seq<PendingMechanismCommit>,
                                           results: seq<CallResult>, i: nat, s: PersistedCommitState, rest: seq<Effect>)
    requires i <= |commits| == |results|
    requires Revealing(x, w, InFlight(x, commits, i))
    requires s.pendingMechanismCommits == map[] && s.pendingCommit == w.state.pendingCommit
    requires rest == if AllAccepted(results) then [Remember(s), Persist] else []
    ensures Throughout(x, w, RevealCalls(commits, results, i) + rest)
    decreases |commits| - i
  {
    if i == |commits| {
      EpilogueSafe(x, w, s);
      assert RevealCalls(commits, results, i) + rest == rest;
    } else {
      CallsAhead(commits, results, i, rest);
      var sub := commits[i].ToReveal();
      var call := OnChain(Landed(results[i], [Revealed(sub)]));
      RevealStep(x, w, sub, results[i], InFlight(x, commits, i + 1));
      if results[i].Accepted? {
        RevealCallsSafe(x, Apply(w, call), commits, results, i + 1, s, rest);
        Cons(x, w, call, RevealCalls(commits, results, i + 1) + rest);
      } else {
        assert results[i] in results;
        Cons(x, w, call, []);
      }
    }
  }

  lemma CallsAhead(commits: seq<PendingMechanismCommit>, results: seq<CallResult>, i: nat, rest: seq<Effect>)
    requires i < |commits| == |results|
    ensures var call := RevealCall(commits[i], results[i]);
            && (results[i].Accepted? ==>
                  RevealCalls(commits, results, i) + rest == [call] + (RevealCalls(commits, results, i + 1) + rest))
            && (!results[i].Accepted? && rest == [] ==> RevealCalls(commits, results, i) + rest == [call] + [])
  {
  }

  lemma EpilogueSafe(x: Submission, w: Node, s: PersistedCommitState)
    requires Safe(x, w)
    requires s.pendingMechanismCommits == map[] && s.pendingCommit == w.state.pendingCommit
    ensures Throughout(x, w, [])
    ensures Throughout(x, w, [Remember(s), Persist])
  {
    ConsStore(x, w, s, []);
    assert [Remember(s), Persist] + [] == [Remember(s), Persist];
  }

  lemma AfterDrain(x: Submission, w: Node, order: seq<u8>)
    requires Safe(x, w) && Enumerates(order, w.state.pendingMechanismCommits.Keys)
    ensures var s := w.state.(pendingMechanismCommits := map[]);
            && Owed(x, w.chain, s)
            && Revealing(x, w.(state := s, file := Some(s)), InFlight(x, Drained(w.state.pendingMechanismCommits, order), 0))
  {
    DrainedOnce(x, w.state, order, 0);
  }

  lemma RevealBatchSafe(x: Submission, w: Node, order: seq<u8>, results: seq<CallResult>)
    requires Safe(x, w) && ValidOp(w, RevealBatch(order, results))
    ensures Throughout(x, w, MechanismReveals(w.state, Drained(w.state.pendingMechanismCommits, order), results))
  {
    AfterDrain(x, w, order);
    DrainAndRevealSafe(x, w, Drained(w.state.pendingMechanismCommits, order), results);
  }

  lemma DrainAndRevealSafe(x: Submission, w: Node, commits: seq<PendingMechanismCommit>, results: seq<CallResult>)
    requires |commits| == |results|
    requires var s := w.state.(pendingMechanismCommits := map[]);
             && Safe(x, w) && Owed(x, w.chain, s)
             && Revealing(x, w.(state := s, file := Some(s)), InFlight(x, commits, 0))
    ensures Throughout(x, w, MechanismReveals(w.state, commits, results))
  {
    var s := w.state.(pendingMechanismCommits := map[]);
    var s2 := s.(lastRevealedEpoch := MarkRevealed(s.lastRevealedEpoch, commits));
    var rest := RevealEpilogue(w.state, commits, results);
    RevealCallsSafe(x, w.(state := s, file := Some(s)), commits, results, 0, s2, rest);
    ConsStore(x, w, s, RevealCalls(commits, results, 0) + rest);
  }

  lemma OpSafe(x: Submission, w: Node, op: Op)
    requires Safe(x, w) && ValidOp(w, op)
    ensures Throughout(x, w, Effects(w, op))
  {
    match op
    case SetEpoch(epoch) => SetEpochSafe(x, w, epoch);
    case SubmitStandard(prepared, result) =>
      if w.state.pendingCommit.Some? {
        StandardRevealSafe(x, w, result);
      } else if prepared.Some? {
        CommitStandardSafe(x, w, prepared.value, result);
      }
    case ForceReveal(result) =>
      if w.state.pendingCommit.Some? {
        StandardRevealSafe(x, w, result);
      }
    case SubmitBatch(batch, result) =>
      if batch != [] {
        SubmitBatchSafe(x, w, batch, result);
      }
    case RevealBatch(order, results) =>
      if w.state.pendingMechanismCommits != map[] {
        RevealBatchSafe(x, w, order, results);
      }
  }

  // ---------------------------------------------------------------- whole runs

  lemma StepSafe(x: Submission, w: Node, step: Step)
    requires Safe(x, w) && ValidStep(w, step)
    ensures Safe(x, Next(w, step))
  {
    var effects := Effects(w, step.op);
    OpSafe(x, w, step.op);
    ThroughoutPrefix(x, w, effects, if step.Crash? then step.after else |effects|);
    assert effects[..|effects|] == effects;
  }

  lemma {:induction false} RunSafe(x: Submission, w: Node, steps: seq<Step>)
    requires Safe(x, w) && ValidRun(w, steps)
    ensures Safe(x, Run(w, steps))
    decreases |steps|
  {
    if steps == [] {
    } else {
      StepSafe(x, w, steps[0]);
      RunSafe(x, Next(w, steps[0]), steps[1..]);
    }
  }

  /**
   * Main theorem: from a fresh data directory, over every run with failing calls and crashes, every
   * reveal carries the contents of an earlier commit and no commit is revealed twice.
   */
  lemma RevealsMatchCommits(steps: seq<Step>)
    requires ValidRun(FRESH, steps)
    ensures RevealsCovered(Run(FRESH, steps).chain)
  {
    var chain := Run(FRESH, steps).chain;
    forall x: Submission, k | 0 <= k <= |chain|
      ensures Count(Revealed(x), chain[..k]) <= Count(Committed(x), chain[..k])
    {
      RunSafe(x, FRESH, steps);
      CoveredAt(x, chain, k);
    }
  }
}
