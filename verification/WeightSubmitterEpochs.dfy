/**
 * Epoch bookkeeping of the weight submitter: what the pending commits say about the epoch, and what
 * a restart in the same epoch gives back.
 */
module WeightSubmissionEpochs {
  import opened Base
  import opened SaltCodec
  import opened WeightSubmission
  import opened WeightSubmissionSafety

  // ---------------------------------------------------------------- the state after one operation

  function NewState(w: Node, op: Op): PersistedCommitState
    requires ValidOp(w, op)
  {
    var s := w.state;
    match op
    case SetEpoch(epoch) => if epoch == w.currentEpoch then s else s.NewEpoch(epoch)
    case SubmitStandard(prepared, result) =>
      if s.pendingCommit.Some? then s.(pendingCommit := None)
      else if prepared.Some? && result.Accepted? then s.(pendingCommit := Some(StandardPending(prepared.value, w.currentEpoch)))
      else s
    case ForceReveal(_) => s.(pendingCommit := None)
    case SubmitBatch(batch, result) =>
      if batch != [] && result.Accepted? then AfterBatch(s, batch, w.currentEpoch) else s
    case RevealBatch(order, results) =>
      if s.pendingMechanismCommits == map[] then s
      else if AllAccepted(results) then
        s.(pendingMechanismCommits := map[],
           lastRevealedEpoch := MarkRevealed(s.lastRevealedEpoch, Drained(s.pendingMechanismCommits, order)))
      else s.(pendingMechanismCommits := map[])
  }

  /** Between operations memory and file agree, and the state is the one `NewState` gives. */
  lemma ExecState(w: Node, op: Op)
    requires ValidOp(w, op) && w.state == Load(w.file)
    ensures Exec(w, op).state == NewState(w, op) == Load(Exec(w, op).file)
    ensures Exec(w, op).currentEpoch == if op.SetEpoch? then op.epoch else w.currentEpoch
  {
    var s := NewState(w, op);
    match op
    case SetEpoch(epoch) =>
      if epoch != w.currentEpoch {
        ApplySetEpoch(w, epoch);
      }
    case SubmitStandard(prepared, result) =>
      if w.state.pendingCommit.Some? {
        ApplyStandardReveal(w, result);
      } else if prepared.Some? {
        var call := OnChain(Landed(result, [Committed(Submission(Standard, prepared.value.data))]));
        ApplyCommit(w, call, result.Accepted?, s);
      }
    case ForceReveal(result) =>
      if w.state.pendingCommit.Some? {
        ApplyStandardReveal(w, result);
      }
    case SubmitBatch(batch, result) =>
      if batch != [] {
        ApplyCommit(w, OnChain(Landed(result, CommitEvents(batch))), result.Accepted?, s);
      }
    case RevealBatch(order, results) =>
      if w.state.pendingMechanismCommits != map[] {
        ApplyReveals(w, Drained(w.state.pendingMechanismCommits, order), results);
      }
  }

  // ---------------------------------------------------------------- epochs of pending commits

  /** Every pending commit sits under its own mechanism and belongs to the committed epoch. */
  ghost predicate EpochsSound(s: PersistedCommitState) {
    && Keyed(s)
    && (s.pendingMechanismCommits != map[] ==>
          && s.committedEpoch.Some?
          && forall m :: m in s.pendingMechanismCommits ==> s.pendingMechanismCommits[m].epoch == s.committedEpoch.value)
  }

  ghost predicate PendingIsCurrent(w: Node) {
    w.state.pendingMechanismCommits != map[] ==> w.state.committedEpoch == Some(w.currentEpoch)
  }

  /** What holds between operations when sessions start with `set_epoch` of a non-zero epoch. */
  ghost predicate Settled(w: Node) {
    w.state == Load(w.file) && EpochsSound(w.state) && (w.currentEpoch != 0 ==> PendingIsCurrent(w))
  }

  /** A fresh session (epoch 0) does nothing before `set_epoch`, and epoch 0 is never set. */
  predicate Disciplined(w: Node, op: Op) {
    if op.SetEpoch? then op.epoch != 0 else w.currentEpoch != 0
  }

  predicate DisciplinedRun(w: Node, steps: seq<Step>)
    requires ValidRun(w, steps)
    decreases |steps|
  {
    steps == [] || (Disciplined(w, steps[0].op) && DisciplinedRun(Next(w, steps[0]), steps[1..]))
  }

  lemma {:induction false} BatchEpochs(s: PersistedCommitState, batch: seq<BatchEntry>, epoch: u64)
    requires Keyed(s)
    requires s.pendingMechanismCommits != map[] ==> EpochsSound(s) && s.committedEpoch == Some(epoch)
    ensures EpochsSound(AfterBatch(s, batch, epoch))
  {
    if batch == [] {
    } else {
      BatchEpochs(s, batch[..|batch| - 1], epoch);
    }
  }

  lemma SettledStays(w: Node, op: Op)
    requires Settled(w) && ValidOp(w, op) && Disciplined(w, op)
    ensures Settled(Exec(w, op))
  {
    ExecState(w, op);
    if op.SubmitBatch? {
      BatchEpochs(w.state, op.batch, w.currentEpoch);
    }
  }

  /** Every state an operation writes to memory is sound, and the file only ever receives such a state. */
  ghost predicate RemembersSound(effects: seq<Effect>) {
    forall i :: 0 <= i < |effects| && effects[i].Remember? ==> EpochsSound(effects[i].state)
  }

  lemma {:induction false} SoundAlong(w: Node, effects: seq<Effect>)
    requires EpochsSound(w.state) && EpochsSound(Load(w.file)) && RemembersSound(effects)
    ensures EpochsSound(ApplyAll(w, effects).state) && EpochsSound(Load(ApplyAll(w, effects).file))
  {
    if effects == [] {
    } else {
      SoundAlong(w, effects[..|effects| - 1]);
      assert effects[|effects| - 1].Remember? ==> EpochsSound(effects[|effects| - 1].state);
    }
  }

  lemma {:induction false} CallsRememberNothing(commits: seq<PendingMechanismCommit>, results: seq<CallResult>, i: nat)
    requires i <= |commits| == |results|
    ensures forall k :: 0 <= k < |RevealCalls(commits, results, i)| ==> RevealCalls(commits, results, i)[k].OnChain?
    decreases |commits| - i
  {
    if i == |commits| {
    } else {
      CallsRememberNothing(commits, results, i + 1);
    }
  }

  lemma EffectsSound(w: Node, op: Op)
    requires Settled(w) && ValidOp(w, op) && Disciplined(w, op)
    ensures RemembersSound(Effects(w, op))
  {
    match op
    case SetEpoch(epoch) =>
    case SubmitStandard(prepared, result) =>
    case ForceReveal(result) =>
    case SubmitBatch(batch, result) =>
      BatchEpochs(w.state, batch, w.currentEpoch);
    case RevealBatch(order, results) =>
      if w.state.pendingMechanismCommits != map[] {
        CallsRememberNothing(Drained(w.state.pendingMechanismCommits, order), results, 0);
      }
  }

  lemma {:induction false} RunSettled(w: Node, steps: seq<Step>)
    requires Settled(w) && ValidRun(w, steps) && DisciplinedRun(w, steps)
    ensures Settled(Run(w, steps))
    decreases |steps|
  {
    if steps == [] {
    } else {
      var op := steps[0].op;
      if steps[0].Do? {
        SettledStays(w, op);
      } else {
        EffectsSound(w, op);
        SoundAlong(w, Effects(w, op)[..steps[0].after]);
      }
      RunSettled(Next(w, steps[0]), steps[1..]);
    }
  }

  /**
   * Over every run, crashes included, in which each session begins with `set_epoch(e)`, e != 0:
   * pending mechanism commits belong to the epoch the node is in, and are keyed by their mechanism.
   */
  lemma PendingBelongsToEpoch(steps: seq<Step>)
    requires ValidRun(FRESH, steps) && DisciplinedRun(FRESH, steps)
    ensures var w := Run(FRESH, steps);
            w.currentEpoch != 0 ==>
              forall m :: m in w.state.pendingMechanismCommits ==>
                            && w.state.committedEpoch == Some(w.currentEpoch)
                            && w.state.pendingMechanismCommits[m].mechanismId == m
                            && w.state.pendingMechanismCommits[m].epoch == w.currentEpoch
  {
    RunSettled(FRESH, steps);
  }

  /** `set_epoch(0)` at the start of a session is ignored, so the rule above needs e != 0 exactly as stated. */
  lemma SessionStart(file: Option<PersistedCommitState>, chain: seq<ChainEvent>, epoch: u64)
    ensures var s := Load(file);
            var w := Exec(Restart(Node(s, 0, file, chain)), SetEpoch(epoch));
            PendingIsCurrent(w) <==>
            (epoch != 0 || s.pendingMechanismCommits == map[] || s.committedEpoch == Some(0))
  {
    ExecState(Restart(Node(Load(file), 0, file, chain)), SetEpoch(epoch));
  }

  // ---------------------------------------------------------------- restarts

  /**
   * A restart followed by `set_epoch` of the same epoch restores the mechanism side of the state
   * exactly. The standard pending commit survives only if a mechanism batch was committed in the
   * same epoch: its own commit does not record the epoch.
   */
  lemma RestartRestores(w: Node)
    requires Settled(w) && w.currentEpoch != 0
    ensures var w' := Exec(Restart(w), SetEpoch(w.currentEpoch));
            && w'.currentEpoch == w.currentEpoch && w'.chain == w.chain
            && w'.state == if w.state.committedEpoch == Some(w.currentEpoch) then w.state else w.state.(pendingCommit := None)
  {
    ApplySetEpoch(Restart(w), w.currentEpoch);
  }

  /** Two accepted calls in a row commit and then reveal the first one's weights, leaving nothing pending. */
  lemma StandardCommitThenReveal(w: Node, p: Prepared, later: Option<Prepared>)
    requires w.state.pendingCommit.None?
    ensures var sub := Submission(Standard, p.data);
            var w' := Exec(Exec(w, SubmitStandard(Some(p), Accepted)), SubmitStandard(later, Accepted));
            && w'.chain == w.chain + [Committed(sub), Revealed(sub)]
            && w'.state.pendingCommit.None? && w'.file == Some(w'.state)
  {
    var sub := Submission(Standard, p.data);
    var s := w.state.(pendingCommit := Some(StandardPending(p, w.currentEpoch)));
    ApplyCommit(w, OnChain([Committed(sub)]), true, s);
    ApplyStandardReveal(Exec(w, SubmitStandard(Some(p), Accepted)), Accepted);
    SaltRoundTrip(p.data.salt);
    assert (w.chain + [Committed(sub)]) + [Revealed(sub)] == w.chain + [Committed(sub), Revealed(sub)];
  }

  /** The standard commit of epoch 5 is on the chain, and after a restart nothing is left to reveal it. */
  lemma StandardCommitLostOnRestart(p: Prepared)
    ensures var w := Exec(Exec(FRESH, SetEpoch(5)), SubmitStandard(Some(p), Accepted));
            var w' := Exec(Restart(w), SetEpoch(5));
            && w.state.pendingCommit.Some? && w'.state.pendingCommit.None?
            && Committed(Submission(Standard, p.data)) in w'.chain
  {
    var w0 := Exec(FRESH, SetEpoch(5));
    ExecState(FRESH, SetEpoch(5));
    SettledStays(FRESH, SetEpoch(5));
    var w := Exec(w0, SubmitStandard(Some(p), Accepted));
    ExecState(w0, SubmitStandard(Some(p), Accepted));
    SettledStays(w0, SubmitStandard(Some(p), Accepted));
    var call := OnChain(Landed(Accepted, [Committed(Submission(Standard, p.data))]));
    ApplyCommit(w0, call, true, NewState(w0, SubmitStandard(Some(p), Accepted)));
    assert w.chain[|w0.chain|] == Committed(Submission(Standard, p.data));
    RestartRestores(w);
  }

  lemma {:induction false} LastEntryPending(pending: map<u8, PendingMechanismCommit>, batch: seq<BatchEntry>,
        epoch: u64, i: nat)
    requires i < |batch| && forall j :: i < j < |batch| ==> batch[j].mechanismId != batch[i].mechanismId
    ensures var m := InsertAll(pending, batch, epoch);
            batch[i].mechanismId in m && m[batch[i].mechanismId] == batch[i].ToPending(epoch)
  {
    if i < |batch| - 1 {
      var init := batch[..|batch| - 1];
      assert batch[|batch| - 1].mechanismId != batch[i].mechanismId;
      LastEntryPending(pending, init, epoch, i);
    }
  }

  lemma {:induction false} EventSent(commits: seq<PendingMechanismCommit>, results: seq<CallResult>, i: nat, k: nat)
    requires i <= k < |commits| == |results| && AllAccepted(results)
    ensures Revealed(commits[k].ToReveal()) in CallEvents(commits, results, i)
    decreases k - i
  {
    assert results[i] in results;
    if i < k {
      EventSent(commits, results, i + 1, k);
    }
  }

  lemma PositionInDrain(pending: map<u8, PendingMechanismCommit>, order: seq<u8>, m: u8) returns (k: nat)
    requires Enumerates(order, pending.Keys) && m in pending
    ensures k < |Drained(pending, order)| && Drained(pending, order)[k] == pending[m]
  {
    assert m in order;
    k :| 0 <= k < |order| && order[k] == m;
  }

  lemma SendsPosition(w: Node, commits: seq<PendingMechanismCommit>, results: seq<CallResult>, k: nat)
    requires k < |commits| == |results| && AllAccepted(results)
    ensures var w' := ApplyAll(w, MechanismReveals(w.state, commits, results));
            && |w.chain| <= |w'.chain|
            && Revealed(commits[k].ToReveal()) in w'.chain[|w.chain|..]
            && w'.state.pendingMechanismCommits == map[]
  {
    ApplyReveals(w, commits, results);
    EventSent(commits, results, 0, k);
    assert (w.chain + CallEvents(commits, results, 0))[|w.chain|..] == CallEvents(commits, results, 0);
  }

  lemma {:induction false} MarkedAt(revealed: map<u8, u64>, pending: map<u8, PendingMechanismCommit>,
        order: seq<u8>, m: u8)
    requires Distinct(order) && forall k :: k in order ==> k in pending && pending[k].mechanismId == k
    ensures var marks := MarkRevealed(revealed, Drained(pending, order));
            if m in order then m in marks && marks[m] == pending[m].epoch
            else (m in marks <==> m in revealed) && (m in marks ==> marks[m] == revealed[m])
  {
    if order == [] {
    } else {
      var init := order[..|order| - 1];
      assert forall k :: k in init ==> k in order;
      MarkedAt(revealed, pending, init, m);
      assert Drained(pending, order)[..|order| - 1] == Drained(pending, init);
      assert order[|order| - 1] in order;
      assert m in order <==> m in init || m == order[|order| - 1];
    }
  }

  /** After it, exactly the mechanisms revealed are marked with the epochs of their commits. */
  lemma RevealMarksEpochs(w: Node, order: seq<u8>, results: seq<CallResult>, m: u8)
    requires w.state == Load(w.file) && Keyed(w.state)
    requires ValidOp(w, RevealBatch(order, results)) && AllAccepted(results)
    ensures var marks := Exec(w, RevealBatch(order, results)).state.lastRevealedEpoch;
            if m in w.state.pendingMechanismCommits then m in marks && marks[m] == w.state.pendingMechanismCommits[m].epoch
            else (m in marks <==> m in w.state.lastRevealedEpoch) && (m in marks ==> marks[m] == w.state.lastRevealedEpoch[m])
  {
    ExecState(w, RevealBatch(order, results));
    MarkedAt(w.state.lastRevealedEpoch, w.state.pendingMechanismCommits, order, m);
  }

  /** An accepted reveal of everything pending sends each pending commit and leaves none. */
  lemma RevealSendsPending(w: Node, order: seq<u8>, results: seq<CallResult>, m: u8)
    requires ValidOp(w, RevealBatch(order, results)) && AllAccepted(results)
    requires m in w.state.pendingMechanismCommits
    ensures var w' := Exec(w, RevealBatch(order, results));
            && |w.chain| <= |w'.chain|
            && Revealed(w.state.pendingMechanismCommits[m].ToReveal()) in w'.chain[|w.chain|..]
            && w'.state.pendingMechanismCommits == map[]
  {
    var commits := Drained(w.state.pendingMechanismCommits, order);
    var k := PositionInDrain(w.state.pendingMechanismCommits, order, m);
    SendsPosition(w, commits, results, k);
  }

  /**
   * After an accepted batch, a restart and `set_epoch` of the same epoch, each mechanism's last entry is
   * pending again.
   */
  lemma RestartStillHolds(w: Node, batch: seq<BatchEntry>, i: nat)
    requires Settled(w) && w.currentEpoch != 0
    requires i < |batch| && forall j :: i < j < |batch| ==> batch[j].mechanismId != batch[i].mechanismId
    ensures var w' := Exec(Restart(Exec(w, SubmitBatch(batch, Accepted))), SetEpoch(w.currentEpoch));
            var m := batch[i].mechanismId;
            && m in w'.state.pendingMechanismCommits
            && w'.state.pendingMechanismCommits[m].ToReveal() == batch[i].ToCommit()
  {
    var op := SubmitBatch(batch, Accepted);
    ExecState(w, op);
    SettledStays(w, op);
    RestartRestores(Exec(w, op));
    LastEntryPending(w.state.pendingMechanismCommits, batch, w.currentEpoch, i);
    SaltRoundTrip(batch[i].data.salt);
  }

  /**
   * The promise the file exists for: after an accepted batch, a crash, a restart and `set_epoch` of
   * the same epoch, revealing sends what was committed, for each mechanism's last entry.
   */
  lemma RestartStillReveals(w: Node, batch: seq<BatchEntry>, order: seq<u8>, results: seq<CallResult>, i: nat)
    requires Settled(w) && w.currentEpoch != 0 && AllAccepted(results)
    requires i < |batch| && forall j :: i < j < |batch| ==> batch[j].mechanismId != batch[i].mechanismId
    requires var w' := Exec(Restart(Exec(w, SubmitBatch(batch, Accepted))), SetEpoch(w.currentEpoch));
             ValidOp(w', RevealBatch(order, results))
    ensures var w' := Exec(Restart(Exec(w, SubmitBatch(batch, Accepted))), SetEpoch(w.currentEpoch));
            var w'' := Exec(w', RevealBatch(order, results));
            && |w'.chain| <= |w''.chain|
            && Revealed(batch[i].ToCommit()) in w''.chain[|w'.chain|..]
            && w''.state.pendingMechanismCommits == map[]
  {
    var w' := Exec(Restart(Exec(w, SubmitBatch(batch, Accepted))), SetEpoch(w.currentEpoch));
    RestartStillHolds(w, batch, i);
    RevealSendsPending(w', order, results, batch[i].mechanismId);
  }

  // ---------------------------------------------------------------- what a reveal loses

  /** The loop gets to position `k`, and that reveal reaches the chain. */
  predicate Sent(results: seq<CallResult>, k: nat)
    requires k < |results|
  {
    (forall j :: 0 <= j < k ==> results[j].Accepted?) && !results[k].Rejected?
  }

  /** The calls the loop makes: up to and including the first that is not accepted. */
  lemma {:induction false} CallsShape(commits: seq<PendingMechanismCommit>, results: seq<CallResult>, i: nat, k: nat)
    requires i <= k < |commits| == |results|
    ensures var calls := RevealCalls(commits, results, i);
            && |calls| <= |commits| - i
            && (k - i < |calls| <==> forall j :: i <= j < k ==> results[j].Accepted?)
            && (k - i < |calls| ==> calls[k - i] == RevealCall(commits[k], results[k]))
    decreases |commits| - i
  {
    if results[i].Accepted? && i + 1 < |commits| {
      var rest := RevealCalls(commits, results, i + 1);
      if i == k {
        CallsShape(commits, results, i + 1, i + 1);
      } else {
        CallsShape(commits, results, i + 1, k);
        OneFurther(RevealCall(commits[i], results[i]), rest, k - i);
      }
    } else if i < k {
      assert !results[i].Accepted?;
    }
  }

  lemma OneFurther<T>(first: T, rest: seq<T>, k: nat)
    requires k > 0
    ensures k < |[first] + rest| <==> k - 1 < |rest|
    ensures k - 1 < |rest| ==> ([first] + rest)[k] == rest[k - 1]
  {
  }

  /** What `t` calls leave on the chain, for one submission. */
  function Landing(calls: seq<Effect>, t: nat): seq<ChainEvent>
    requires t <= |calls| && forall i :: 0 <= i < |calls| ==> calls[i].OnChain?
  {
    if t == 0 then [] else Landing(calls, t - 1) + calls[t - 1].events
  }

  lemma {:induction false} ApplyPrefix(w: Node, calls: seq<Effect>, t: nat)
    requires t <= |calls| && forall i :: 0 <= i < |calls| ==> calls[i].OnChain?
    ensures ApplyAll(w, calls[..t]) == w.(chain := w.chain + Landing(calls, t))
  {
    if t == 0 {
      EmptyRight(w.chain);
    } else {
      ApplyPrefix(w, calls, t - 1);
      assert calls[..t][..|calls[..t]| - 1] == calls[..t - 1];
      Assoc(w.chain, Landing(calls, t - 1), calls[t - 1].events);
    }
  }

  lemma {:induction false} LandingHas(calls: seq<Effect>, t: nat, e: ChainEvent)
    requires t <= |calls| && forall i :: 0 <= i < |calls| ==> calls[i].OnChain?
    ensures e in Landing(calls, t) <==> exists i :: 0 <= i < t && e in calls[i].events
  {
    if t == 0 {
    } else {
      LandingHas(calls, t - 1, e);
    }
  }

  /** Different mechanisms reveal different submissions. */
  lemma OneCallEach(pending: map<u8, PendingMechanismCommit>, order: seq<u8>, i: nat, k: nat)
    requires Distinct(order) && i < |order| && k < |order|
    requires forall m :: m in order ==> m in pending && pending[m].mechanismId == m
    ensures var commits := Drained(pending, order);
            commits[i].ToReveal() == commits[k].ToReveal() <==> i == k
  {
    assert order[i] in order && order[k] in order;
  }

  lemma CallHolds(commits: seq<PendingMechanismCommit>, results: seq<CallResult>, i: nat, e: ChainEvent)
    requires |commits| == |results| && i < |RevealCalls(commits, results, 0)| <= |commits|
    ensures RevealCalls(commits, results, 0)[i].OnChain?
    ensures e in RevealCalls(commits, results, 0)[i].events <==> e == Revealed(commits[i].ToReveal()) && !results[i].Rejected?
  {
    CallsShape(commits, results, 0, i);
  }

  /** Of the first `t` calls, the one at `k` shows on the chain if it was made and not rejected. */
  lemma CallShows(s: PersistedCommitState, order: seq<u8>, results: seq<CallResult>, t: nat, k: nat)
    requires Keyed(s) && Enumerates(order, s.pendingMechanismCommits.Keys) && |results| == |order| && k < |order|
    requires var commits := Drained(s.pendingMechanismCommits, order);
             && t <= |RevealCalls(commits, results, 0)|
             && forall i :: 0 <= i < |RevealCalls(commits, results, 0)| ==> RevealCalls(commits, results, 0)[i].OnChain?
    ensures var commits := Drained(s.pendingMechanismCommits, order);
            Revealed(commits[k].ToReveal()) in Landing(RevealCalls(commits, results, 0), t) <==> k < t && !results[k].Rejected?
  {
    var commits := Drained(s.pendingMechanismCommits, order);
    var calls, e := RevealCalls(commits, results, 0), Revealed(commits[k].ToReveal());
    LandingHas(calls, t, e);
    CallsShape(commits, results, 0, 0);
    forall i | 0 <= i < t ensures e in calls[i].events <==> i == k && !results[k].Rejected? {
      CallHolds(commits, results, i, e);
      OneCallEach(s.pendingMechanismCommits, order, i, k);
    }
    if k < t && !results[k].Rejected? {
      assert e in calls[k].events;
    }
  }

  /** The chain and the file when a batch reveal stops after `after` of its effects. */
  lemma StoppedReveal(w: Node, commits: seq<PendingMechanismCommit>, results: seq<CallResult>, after: nat)
    requires |commits| == |results| && after <= |MechanismReveals(w.state, commits, results)|
    requires forall i :: 0 <= i < |RevealCalls(commits, results, 0)| ==> RevealCalls(commits, results, 0)[i].OnChain?
    ensures var calls := RevealCalls(commits, results, 0);
            var w' := ApplyAll(w, MechanismReveals(w.state, commits, results)[..after]);
            if after < 2 then w'.chain == w.chain && w'.file == w.file
            else
              && w'.chain == w.chain + Landing(calls, if after - 2 < |calls| then after - 2 else |calls|)
              && w'.file.Some? && w'.file.value.pendingMechanismCommits == map[]
  {
    var s := w.state.(pendingMechanismCommits := map[]);
    var effects, calls := MechanismReveals(w.state, commits, results), RevealCalls(commits, results, 0);
    var rest := RevealEpilogue(w.state, commits, results);
    StoppedStore(w, s, calls + rest, after);
    if after >= 2 {
      StoppedCalls(w.(state := s, file := Some(s)), w.state, commits, results, after - 2);
    }
  }

  /** A new state is in the file once its two effects are done. */
  lemma StoppedStore(w: Node, s: PersistedCommitState, rest: seq<Effect>, after: nat)
    requires after <= 2 + |rest|
    ensures var w' := ApplyAll(w, ([Remember(s), Persist] + rest)[..after]);
            if after < 2 then w'.chain == w.chain && w'.file == w.file
            else w' == ApplyAll(w.(state := s, file := Some(s)), rest[..after - 2])
  {
    var effects := [Remember(s), Persist] + rest;
    if after == 0 {
      assert effects[..0] == [];
    } else if after == 1 {
      assert effects[..1] == [Remember(s)];
      ApplyOne(w, Remember(s));
    } else {
      ApplyStore(w, s);
      TakePast([Remember(s), Persist], rest, after);
      ApplyConcat(w, [Remember(s), Persist], rest[..after - 2]);
    }
  }

  lemma TakePast<T>(a: seq<T>, b: seq<T>, n: nat)
    requires |a| <= n <= |a| + |b|
    ensures (a + b)[..n] == a + b[..n - |a|]
  {
  }

  /** The same once the drain is persisted. */
  lemma StoppedCalls(w: Node, s: PersistedCommitState, commits: seq<PendingMechanismCommit>,
        results: seq<CallResult>, t: nat)
    requires |commits| == |results| && w.file.Some? && w.file.value.pendingMechanismCommits == map[]
    requires forall i :: 0 <= i < |RevealCalls(commits, results, 0)| ==> RevealCalls(commits, results, 0)[i].OnChain?
    requires t <= |RevealCalls(commits, results, 0) + RevealEpilogue(s, commits, results)|
    ensures var calls := RevealCalls(commits, results, 0);
            var w' := ApplyAll(w, (calls + RevealEpilogue(s, commits, results))[..t]);
            && w'.chain == w.chain + Landing(calls, if t < |calls| then t else |calls|)
            && w'.file.Some? && w'.file.value.pendingMechanismCommits == map[]
  {
    var calls, rest := RevealCalls(commits, results, 0), RevealEpilogue(s, commits, results);
    if t <= |calls| {
      assert (calls + rest)[..t] == calls[..t];
      ApplyPrefix(w, calls, t);
    } else {
      TakePast(calls, rest, t);
      ApplyConcat(w, calls, rest[..t - |calls|]);
      assert calls[..|calls|] == calls;
      ApplyPrefix(w, calls, |calls|);
      StoppedEpilogue(ApplyAll(w, calls), s, commits, results, t - |calls|);
    }
  }

  lemma StoppedEpilogue(w: Node, s: PersistedCommitState, commits: seq<PendingMechanismCommit>,
        results: seq<CallResult>, t: nat)
    requires t <= |RevealEpilogue(s, commits, results)| && w.file.Some? && w.file.value.pendingMechanismCommits == map[]
    ensures var w' := ApplyAll(w, RevealEpilogue(s, commits, results)[..t]);
            w'.chain == w.chain && w'.file.Some? && w'.file.value.pendingMechanismCommits == map[]
  {
    var rest := RevealEpilogue(s, commits, results);
    if t == 0 {
      assert rest[..0] == [];
    } else if t == 1 {
      assert rest[..1] == [rest[0]];
      ApplyOne(w, rest[0]);
    } else {
      assert rest[..2] == rest;
      ApplyStore(w, rest[0].state);
    }
  }

  /**
   * Exactly what becomes of a pending mechanism commit when a reveal of everything pending stops after
   * `after` of its effects, whether because the process does or because it is done. It is still pending
   * after a restart if the drain had not been persisted; it is on the chain if the loop got to it and the
   * call was not rejected; and otherwise it is lost: neither revealed nor pending.
   */
  lemma RevealOutcome(w: Node, order: seq<u8>, results: seq<CallResult>, after: nat, k: nat)
    requires w.state == Load(w.file) && Keyed(w.state) && w.state.pendingMechanismCommits != map[]
    requires ValidOp(w, RevealBatch(order, results)) && k < |order|
    requires after <= |Effects(w, RevealBatch(order, results))|
    ensures var w' := Restart(ApplyAll(w, Effects(w, RevealBatch(order, results))[..after]));
            var commit := (assert order[k] in order; w.state.pendingMechanismCommits[order[k]]);
            && |w.chain| <= |w'.chain|
            && (order[k] in w'.state.pendingMechanismCommits <==> after < 2)
            && (Revealed(commit.ToReveal()) in w'.chain[|w.chain|..] <==> after >= k + 3 && Sent(results, k))
  {
    var commits := Drained(w.state.pendingMechanismCommits, order);
    var calls := RevealCalls(commits, results, 0);
    CallsRememberNothing(commits, results, 0);
    CallsShape(commits, results, 0, k);
    StoppedReveal(w, commits, results, after);
    assert order[k] in order;
    if after >= 2 {
      var t := if after - 2 < |calls| then after - 2 else |calls|;
      CallShows(w.state, order, results, t, k);
      assert (w.chain + Landing(calls, t))[|w.chain|..] == Landing(calls, t);
    }
  }

  /**
   * Likewise for the standard commit: lost if the process stops between the file and the call, or the call
   * is rejected.
   */
  lemma StandardRevealOutcome(w: Node, result: CallResult, after: nat)
    requires w.state == Load(w.file) && w.state.pendingCommit.Some? && after <= 3
    ensures var w' := Restart(ApplyAll(w, Effects(w, ForceReveal(result))[..after]));
            && |w.chain| <= |w'.chain|
            && (w'.state.pendingCommit.Some? <==> after < 2)
            && (Revealed(w.state.pendingCommit.value.ToReveal()) in w'.chain[|w.chain|..] <==> after == 3 && !result.Rejected?)
  {
    var s := w.state.(pendingCommit := None);
    var effects := StandardReveal(w.state, result);
    if after == 0 {
      assert effects[..0] == [];
    } else if after == 1 {
      assert effects[..1] == [Remember(s)];
      ApplyOne(w, Remember(s));
    } else if after == 2 {
      assert effects[..2] == [Remember(s), Persist];
      ApplyStore(w, s);
    } else {
      assert effects[..3] == effects;
      ApplyStandardReveal(w, result);
    }
  }

  // ---------------------------------------------------------------- what a batch leaves pending

  ghost predicate Names(batch: seq<BatchEntry>, m: u8) {
    exists i :: 0 <= i < |batch| && batch[i].mechanismId == m
  }

  lemma {:induction false} InsertAllOthers(pending: map<u8, PendingMechanismCommit>, batch: seq<BatchEntry>, epoch: u64, m: u8)
    requires forall i :: 0 <= i < |batch| ==> batch[i].mechanismId != m
    ensures var after := InsertAll(pending, batch, epoch);
            (m in after <==> m in pending) && (m in pending ==> after[m] == pending[m])
  {
    if batch == [] {
    } else {
      InsertAllOthers(pending, batch[..|batch| - 1], epoch, m);
    }
  }

  /** The pending commit repeats the entry, under the epoch it was committed in. */
  predicate Records(p: PendingMechanismCommit, entry: BatchEntry, epoch: u64) {
    && p.mechanismId == entry.mechanismId && p.hash == entry.hash && p.epoch == epoch
    && p.uids == entry.data.uids && p.weights == entry.data.weights && p.versionKey == entry.data.versionKey
    && GetSalt(p.saltHex) == entry.data.salt
  }

  /**
   * What a batch leaves of the state, in memory and in the file. A mechanism it does not name has a commit
   * pending if and only if it had before, the same one. If it is not accepted everything stays; if it is, the
   * standard commit and the marks of earlier reveals do.
   */
  lemma BatchOutcome(w: Node, batch: seq<BatchEntry>, result: CallResult, m: u8)
    requires w.state == Load(w.file) && batch != []
    ensures var w' := Exec(w, SubmitBatch(batch, result));
            var before, after := w.state.pendingMechanismCommits, w'.state.pendingMechanismCommits;
            && Load(w'.file) == w'.state
            && (!result.Accepted? ==> w'.state == w.state && w'.file == w.file)
            && (!Names(batch, m) ==> (m in after <==> m in before) && (m in before ==> after[m] == before[m]))
            && (result.Accepted? ==>
                  && w'.state.committedEpoch == Some(w.currentEpoch)
                  && w'.state.pendingCommit == w.state.pendingCommit && w'.state.lastRevealedEpoch == w.state.lastRevealedEpoch)
  {
    ExecState(w, SubmitBatch(batch, result));
    ApplyCommit(w, OnChain(Landed(result, CommitEvents(batch))), result.Accepted?, AfterBatch(w.state, batch, w.currentEpoch));
    if !Names(batch, m) {
      InsertAllOthers(w.state.pendingMechanismCommits, batch, w.currentEpoch, m);
    }
  }

  /** After an accepted batch the last entry of each mechanism is pending as it was committed. */
  lemma BatchRecords(w: Node, batch: seq<BatchEntry>, i: nat)
    requires w.state == Load(w.file) && i < |batch| && forall j :: i < j < |batch| ==> batch[j].mechanismId != batch[i].mechanismId
    ensures var after := Exec(w, SubmitBatch(batch, Accepted)).state.pendingMechanismCommits;
            batch[i].mechanismId in after && Records(after[batch[i].mechanismId], batch[i], w.currentEpoch)
  {
    ExecState(w, SubmitBatch(batch, Accepted));
    LastEntryPending(w.state.pendingMechanismCommits, batch, w.currentEpoch, i);
    SaltRoundTrip(batch[i].data.salt);
  }

  /** Two accepted batches and an accepted reveal: what only the first named is revealed as well as the second. */
  lemma TwoBatchesReveal(w: Node, first: seq<BatchEntry>, second: seq<BatchEntry>, order: seq<u8>, results: seq<CallResult>,
        i: nat, j: nat)
    requires w.state == Load(w.file) && AllAccepted(results) && i < |first| && j < |second|
    requires forall k :: i < k < |first| ==> first[k].mechanismId != first[i].mechanismId
    requires forall k :: j < k < |second| ==> second[k].mechanismId != second[j].mechanismId
    requires !Names(second, first[i].mechanismId)
    requires ValidOp(Exec(Exec(w, SubmitBatch(first, Accepted)), SubmitBatch(second, Accepted)), RevealBatch(order, results))
    ensures var w2 := Exec(Exec(w, SubmitBatch(first, Accepted)), SubmitBatch(second, Accepted));
            var w3 := Exec(w2, RevealBatch(order, results));
            && |w2.chain| <= |w3.chain|
            && Revealed(first[i].ToCommit()) in w3.chain[|w2.chain|..] && Revealed(second[j].ToCommit()) in w3.chain[|w2.chain|..]
  {
    var w1 := Exec(w, SubmitBatch(first, Accepted));
    var w2 := Exec(w1, SubmitBatch(second, Accepted));
    var a, b := first[i].mechanismId, second[j].mechanismId;
    BatchOutcome(w, first, Accepted, a);
    BatchRecords(w, first, i);
    BatchOutcome(w1, second, Accepted, a);
    BatchRecords(w1, second, j);
    RecordsReveals(w2.state.pendingMechanismCommits[a], first[i], w.currentEpoch);
    RecordsReveals(w2.state.pendingMechanismCommits[b], second[j], w1.currentEpoch);
    RevealSendsPending(w2, order, results, a);
    RevealSendsPending(w2, order, results, b);
  }

  lemma RecordsReveals(p: PendingMechanismCommit, entry: BatchEntry, epoch: u64)
    requires Records(p, entry, epoch)
    ensures p.ToReveal() == entry.ToCommit()
  {
  }

  /**
   * Entering an epoch: everything pending is kept if the node is in that epoch or it is the committed one,
   * and dropped otherwise; nothing else about the commits changes, and the file follows.
   */
  lemma EpochEntered(w: Node, epoch: u64)
    requires w.state == Load(w.file)
    ensures var w' := Exec(w, SetEpoch(epoch));
            var keeps := epoch == w.currentEpoch || w.state.committedEpoch == Some(epoch);
            && w'.currentEpoch == epoch && w'.chain == w.chain && w'.state == Load(w'.file)
            && w'.state.pendingMechanismCommits == (if keeps then w.state.pendingMechanismCommits else map[])
            && w'.state.pendingCommit == (if keeps then w.state.pendingCommit else None)
            && w'.state.committedEpoch == w.state.committedEpoch && w'.state.lastRevealedEpoch == w.state.lastRevealedEpoch
  {
    if epoch != w.currentEpoch {
      ApplySetEpoch(w, epoch);
    }
  }

  /** What a standard commit leaves pending, in memory and in the file. */
  lemma StandardCommitOutcome(w: Node, p: Prepared, result: CallResult)
    requires w.state == Load(w.file) && w.state.pendingCommit.None?
    ensures var w' := Exec(w, SubmitStandard(Some(p), result));
            && w'.state == Load(w'.file)
            && (!result.Accepted? ==> w'.state == w.state)
            && (result.Accepted? ==>
                  && w'.state == w.state.(pendingCommit := w'.state.pendingCommit) && w'.state.pendingCommit.Some?
                  && var q := w'.state.pendingCommit.value;
                     && q.hash == p.hash && q.uids == p.data.uids && q.weights == p.data.weights
                     && q.versionKey == p.data.versionKey && GetSalt(q.saltHex) == p.data.salt && q.epoch == w.currentEpoch)
  {
    ExecState(w, SubmitStandard(Some(p), result));
    SaltRoundTrip(p.data.salt);
  }

  /** Without a file nothing is pending, committed or revealed. */
  lemma NoFileNothingPending()
    ensures Load(None) == PersistedCommitState(None, map[], None, map[])
  {
  }
}
