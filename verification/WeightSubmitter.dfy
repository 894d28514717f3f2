/**
 * The weight submitter: hash-based commit-reveal with a write-through state file, chain calls that
 * may fail, and a process that may stop between any two effects and start again from the file.
 *
 * Every operation is given as the sequence of effects it performs (memory, file, chain); the class
 * performs exactly those effects, and a crash is a prefix of them followed by a reload.
 */
module WeightSubmission {
  import opened Base
  import opened SaltCodec

  // ---------------------------------------------------------------- what the chain sees

  datatype CommitData = CommitData(uids: seq<u16>, weights: seq<u16>, salt: seq<u16>, versionKey: u64)

  datatype Target = Standard | Mechanism(id: u8)

  /** The preimage of a commit hash, and the arguments of a reveal. */
  datatype Submission = Submission(target: Target, data: CommitData)

  datatype ChainEvent = Committed(sub: Submission) | Revealed(sub: Submission)

  /** A call can reach the chain and still be reported to the caller as failed. */
  datatype CallResult = Accepted | AcceptedButErrored | Rejected

  function Landed(r: CallResult, events: seq<ChainEvent>): seq<ChainEvent> {
    if r.Rejected? then [] else events
  }

  // ---------------------------------------------------------------- persisted state

  datatype PendingMechanismCommit = PendingMechanismCommit(
    mechanismId: u8, hash: string, uids: seq<u16>, weights: seq<u16>,
    saltHex: string, versionKey: u64, epoch: u64)
  {
    function ToReveal(): Submission {
      Submission(Mechanism(mechanismId), CommitData(uids, weights, GetSalt(saltHex), versionKey))
    }
  }

  datatype PendingCommit = PendingCommit(
    hash: string, uids: seq<u16>, weights: seq<u16>, saltHex: string, versionKey: u64, epoch: u64)
  {
    function ToReveal(): Submission {
      Submission(Standard, CommitData(uids, weights, GetSalt(saltHex), versionKey))
    }
  }

  datatype PersistedCommitState = PersistedCommitState(
    committedEpoch: Option<u64>,
    pendingMechanismCommits: map<u8, PendingMechanismCommit>,
    pendingCommit: Option<PendingCommit>,
    lastRevealedEpoch: map<u8, u64>)
  {
    /** Entering an epoch other than the committed one discards everything not yet revealed. */
    function NewEpoch(epoch: u64): PersistedCommitState {
      if committedEpoch != Some(epoch) then this.(pendingMechanismCommits := map[], pendingCommit := None)
      else this
    }
  }

  const DEFAULT_STATE := PersistedCommitState(None, map[], None, map[])

  function Load(file: Option<PersistedCommitState>): PersistedCommitState {
    match file case Some(s) => s case None => DEFAULT_STATE
  }

  // ---------------------------------------------------------------- effects

  datatype Node = Node(state: PersistedCommitState, currentEpoch: u64,
                       file: Option<PersistedCommitState>, chain: seq<ChainEvent>)

  datatype Effect =
    | EnterEpoch(epoch: u64)
    | Remember(state: PersistedCommitState)
    | Persist
    | OnChain(events: seq<ChainEvent>)

  function Apply(w: Node, e: Effect): Node {
    match e
    case EnterEpoch(epoch) => w.(currentEpoch := epoch)
    case Remember(state) => w.(state := state)
    case Persist => w.(file := Some(w.state))
    case OnChain(events) => w.(chain := w.chain + events)
  }

  function ApplyAll(w: Node, effects: seq<Effect>): Node {
    if effects == [] then w else Apply(ApplyAll(w, effects[..|effects| - 1]), effects[|effects| - 1])
  }

  lemma {:induction false} ApplyConcat(w: Node, a: seq<Effect>, b: seq<Effect>)
    ensures ApplyAll(w, a + b) == ApplyAll(ApplyAll(w, a), b)
  {
    if b == [] {
      assert a + b == a;
    } else {
      ApplyConcat(w, a, b[..|b| - 1]);
      assert (a + b)[..|a + b| - 1] == a + b[..|b| - 1];
    }
  }

  lemma Regroup(done: seq<Effect>, e: Effect, e': Effect, calls: seq<Effect>, rest: seq<Effect>)
    ensures done + ([e, e'] + (calls + rest)) == ((done + [e]) + [e']) + calls + rest
  {
  }

  function Restart(w: Node): Node {
    Node(Load(w.file), 0, w.file, w.chain)
  }

  const FRESH := Node(DEFAULT_STATE, 0, None, [])

  // ---------------------------------------------------------------- operations

  datatype Prepared = Prepared(hash: string, data: CommitData)

  datatype BatchEntry = BatchEntry(mechanismId: u8, hash: string, data: CommitData)
  {
    function ToCommit(): Submission {
      Submission(Mechanism(mechanismId), data)
    }
    function ToPending(epoch: u64): PendingMechanismCommit {
      PendingMechanismCommit(mechanismId, hash, data.uids, data.weights, SaltToHex(data.salt), data.versionKey, epoch)
    }
  }

  datatype Op =
    | SetEpoch(epoch: u64)
    | SubmitStandard(prepared: Option<Prepared>, result: CallResult)
    | ForceReveal(result: CallResult)
    | SubmitBatch(batch: seq<BatchEntry>, result: CallResult)
    | RevealBatch(order: seq<u8>, results: seq<CallResult>)

  /** A reveal of everything pending drains the hash map in some order, with one call result each. */
  predicate ValidOp(w: Node, op: Op) {
    op.RevealBatch? ==>
      Enumerates(op.order, w.state.pendingMechanismCommits.Keys) && |op.results| == |op.order|
  }

  function StandardPending(p: Prepared, epoch: u64): PendingCommit {
    PendingCommit(p.hash, p.data.uids, p.data.weights, SaltToHex(p.data.salt), p.data.versionKey, epoch)
  }

  function CommitEvents(batch: seq<BatchEntry>): seq<ChainEvent> {
    if batch == [] then []
    else CommitEvents(batch[..|batch| - 1]) + [Committed(batch[|batch| - 1].ToCommit())]
  }

  function InsertAll(pending: map<u8, PendingMechanismCommit>, batch: seq<BatchEntry>, epoch: u64)
    : map<u8, PendingMechanismCommit>
  {
    if batch == [] then pending
    else
      var last := batch[|batch| - 1];
      InsertAll(pending, batch[..|batch| - 1], epoch)[last.mechanismId := last.ToPending(epoch)]
  }

  function Drained(pending: map<u8, PendingMechanismCommit>, order: seq<u8>): (commits: seq<PendingMechanismCommit>)
    requires forall m :: m in order ==> m in pending
  {
    seq(|order|, i requires 0 <= i < |order| => assert order[i] in order; pending[order[i]])
  }

  /** The reveals still to be sent from position `i`; the first error ends the sequence. */
  function RevealCalls(commits: seq<PendingMechanismCommit>, results: seq<CallResult>, i: nat): seq<Effect>
    requires i <= |commits| == |results|
    decreases |commits| - i
  {
    if i == |commits| then []
    else
      [RevealCall(commits[i], results[i])] + (if results[i].Accepted? then RevealCalls(commits, results, i + 1) else [])
  }

  function RevealCall(commit: PendingMechanismCommit, result: CallResult): (e: Effect)
    ensures e.OnChain?
  {
    OnChain(Landed(result, [Revealed(commit.ToReveal())]))
  }

  predicate AllAccepted(results: seq<CallResult>) {
    forall r :: r in results ==> r.Accepted?
  }

  function MarkRevealed(revealed: map<u8, u64>, commits: seq<PendingMechanismCommit>): map<u8, u64> {
    if commits == [] then revealed
    else
      var last := commits[|commits| - 1];
      MarkRevealed(revealed, commits[..|commits| - 1])[last.mechanismId := last.epoch]
  }

  /** The effects of one operation, in program order. */
  function Effects(w: Node, op: Op): seq<Effect>
    requires ValidOp(w, op)
  {
    var s := w.state;
    match op
    case SetEpoch(epoch) =>
      if epoch == w.currentEpoch then [] else [EnterEpoch(epoch), Remember(s.NewEpoch(epoch)), Persist]
    case SubmitStandard(prepared, result) =>
      if s.pendingCommit.Some? then StandardReveal(s, result)
      else if prepared.None? then []
      else
        [OnChain(Landed(result, [Committed(Submission(Standard, prepared.value.data))]))] +
        (if result.Accepted? then
           [Remember(s.(pendingCommit := Some(StandardPending(prepared.value, w.currentEpoch)))), Persist]
         else [])
    case ForceReveal(result) =>
      if s.pendingCommit.Some? then StandardReveal(s, result) else []
    case SubmitBatch(batch, result) =>
      if batch == [] then []
      else
        [OnChain(Landed(result, CommitEvents(batch)))] +
        (if result.Accepted? then [Remember(AfterBatch(s, batch, w.currentEpoch)), Persist] else [])
    case RevealBatch(order, results) =>
      if s.pendingMechanismCommits == map[] then []
      else MechanismReveals(s, Drained(s.pendingMechanismCommits, order), results)
  }

  /** Drain, persist, reveal one by one, and only after the last success record what was revealed. */
  function MechanismReveals(s: PersistedCommitState, commits: seq<PendingMechanismCommit>, results: seq<CallResult>)
    : seq<Effect>
    requires |commits| == |results|
  {
    [Remember(s.(pendingMechanismCommits := map[])), Persist] +
    (RevealCalls(commits, results, 0) + RevealEpilogue(s, commits, results))
  }

  function StandardReveal(s: PersistedCommitState, result: CallResult): seq<Effect>
    requires s.pendingCommit.Some?
  {
    [Remember(s.(pendingCommit := None)), Persist, OnChain(Landed(result, [Revealed(s.pendingCommit.value.ToReveal())]))]
  }

  function AfterBatch(s: PersistedCommitState, batch: seq<BatchEntry>, epoch: u64): PersistedCommitState {
    s.(pendingMechanismCommits := InsertAll(s.pendingMechanismCommits, batch, epoch), committedEpoch := Some(epoch))
  }

  function RevealEpilogue(s: PersistedCommitState, commits: seq<PendingMechanismCommit>, results: seq<CallResult>)
    : seq<Effect>
  {
    if AllAccepted(results) then
      [Remember(s.(pendingMechanismCommits := map[], lastRevealedEpoch := MarkRevealed(s.lastRevealedEpoch, commits))),
       Persist]
    else []
  }

  function Exec(w: Node, op: Op): Node
    requires ValidOp(w, op)
  {
    ApplyAll(w, Effects(w, op))
  }

  // ---------------------------------------------------------------- what the effects add up to

  lemma ApplyOne(w: Node, e: Effect)
    ensures ApplyAll(w, [e]) == Apply(w, e)
  {
    assert [e][..0] == [];
  }

  lemma ApplyStore(w: Node, s: PersistedCommitState)
    ensures ApplyAll(w, [Remember(s), Persist]) == w.(state := s, file := Some(s))
  {
    ApplyOne(w, Remember(s));
    ApplyConcat(w, [Remember(s)], [Persist]);
    ApplyOne(w.(state := s), Persist);
    assert [Remember(s)] + [Persist] == [Remember(s), Persist];
  }

  lemma ApplyCons(w: Node, e: Effect, rest: seq<Effect>)
    ensures ApplyAll(w, [e] + rest) == ApplyAll(Apply(w, e), rest)
  {
    ApplyOne(w, e);
    ApplyConcat(w, [e], rest);
  }

  function CallEvents(commits: seq<PendingMechanismCommit>, results: seq<CallResult>, i: nat): seq<ChainEvent>
    requires i <= |commits| == |results|
    decreases |commits| - i
  {
    if i == |commits| then []
    else
      RevealCall(commits[i], results[i]).events +
      (if results[i].Accepted? then CallEvents(commits, results, i + 1) else [])
  }

  /** The first `n` reveal calls, as the loop makes them, and what they leave on the chain. */
  ghost function SentUpTo(commits: seq<PendingMechanismCommit>, results: seq<CallResult>, n: nat): seq<Effect>
    requires n <= |commits| == |results|
  {
    if n == 0 then [] else SentUpTo(commits, results, n - 1) + [RevealCall(commits[n - 1], results[n - 1])]
  }

  ghost function SeenUpTo(commits: seq<PendingMechanismCommit>, results: seq<CallResult>, n: nat): seq<ChainEvent>
    requires n <= |commits| == |results|
  {
    if n == 0 then [] else SeenUpTo(commits, results, n - 1) + RevealCall(commits[n - 1], results[n - 1]).events
  }

  lemma {:induction false} SentThenRest(commits: seq<PendingMechanismCommit>, results: seq<CallResult>, n: nat)
    requires n <= |commits| == |results|
    requires forall j :: 0 <= j < n ==> results[j].Accepted?
    ensures SentUpTo(commits, results, n) + RevealCalls(commits, results, n) == RevealCalls(commits, results, 0)
  {
    if n == 0 {
    } else {
      SentThenRest(commits, results, n - 1);
      assert results[n - 1].Accepted?;
      var sent, next := SentUpTo(commits, results, n - 1), [RevealCall(commits[n - 1], results[n - 1])];
      var rest := RevealCalls(commits, results, n);
      assert SentUpTo(commits, results, n) == sent + next && RevealCalls(commits, results, n - 1) == next + rest;
      Assoc(sent, next, rest);
    }
  }

  lemma {:induction false} SeenThenRest(commits: seq<PendingMechanismCommit>, results: seq<CallResult>, n: nat)
    requires n <= |commits| == |results|
    requires forall j :: 0 <= j < n ==> results[j].Accepted?
    ensures SeenUpTo(commits, results, n) + CallEvents(commits, results, n) == CallEvents(commits, results, 0)
  {
    if n == 0 {
    } else {
      SeenThenRest(commits, results, n - 1);
      assert results[n - 1].Accepted?;
      var seen, next := SeenUpTo(commits, results, n - 1), RevealCall(commits[n - 1], results[n - 1]).events;
      var rest := CallEvents(commits, results, n);
      assert SeenUpTo(commits, results, n) == seen + next && CallEvents(commits, results, n - 1) == next + rest;
      Assoc(seen, next, rest);
    }
  }

  /** The loop ends after `n` calls: the last of them failed, or there are no more. */
  lemma StopsAfter(commits: seq<PendingMechanismCommit>, results: seq<CallResult>, n: nat)
    requires n <= |commits| == |results|
    requires forall j :: 0 <= j < n - 1 ==> results[j].Accepted?
    requires n == |commits| || (n > 0 && !results[n - 1].Accepted?)
    ensures SentUpTo(commits, results, n) == RevealCalls(commits, results, 0)
    ensures SeenUpTo(commits, results, n) == CallEvents(commits, results, 0)
  {
    if n > 0 && !results[n - 1].Accepted? {
      SentThenRest(commits, results, n - 1);
      SeenThenRest(commits, results, n - 1);
      EmptyRight([RevealCall(commits[n - 1], results[n - 1])]);
      EmptyRight(RevealCall(commits[n - 1], results[n - 1]).events);
    } else {
      SentThenRest(commits, results, n);
      SeenThenRest(commits, results, n);
      EmptyRight(SentUpTo(commits, results, n));
      EmptyRight(SeenUpTo(commits, results, n));
    }
  }

  lemma CallsJoin(w: Node, events: seq<ChainEvent>, later: seq<Effect>, laterEvents: seq<ChainEvent>)
    requires var w1 := w.(chain := w.chain + events);
             ApplyAll(w1, later) == w1.(chain := w1.chain + laterEvents) || (later == [] && laterEvents == [])
    ensures ApplyAll(w, [OnChain(events)] + later) == w.(chain := w.chain + (events + laterEvents))
  {
    ApplyCons(w, OnChain(events), later);
    assert (w.chain + events) + laterEvents == w.chain + (events + laterEvents);
  }

  lemma {:induction false} ApplyCalls(w: Node, commits: seq<PendingMechanismCommit>, results: seq<CallResult>, i: nat)
    requires i <= |commits| == |results|
    ensures ApplyAll(w, RevealCalls(commits, results, i)) == w.(chain := w.chain + CallEvents(commits, results, i))
    decreases |commits| - i
  {
    if i == |commits| {
      assert w.chain + [] == w.chain;
    } else {
      var events := Landed(results[i], [Revealed(commits[i].ToReveal())]);
      var later, laterEvents := [], [];
      var w1 := w.(chain := w.chain + events);
      if results[i].Accepted? {
        later, laterEvents := RevealCalls(commits, results, i + 1), CallEvents(commits, results, i + 1);
        ApplyCalls(w1, commits, results, i + 1);
      }
      CallsJoin(w, events, later, laterEvents);
    }
  }

  lemma ApplyReveals(w: Node, commits: seq<PendingMechanismCommit>, results: seq<CallResult>)
    requires |commits| == |results|
    ensures var s := w.state.(pendingMechanismCommits := map[]);
            var s' := if AllAccepted(results)
                      then s.(lastRevealedEpoch := MarkRevealed(s.lastRevealedEpoch, commits)) else s;
            ApplyAll(w, MechanismReveals(w.state, commits, results))
            == w.(state := s', file := Some(s'), chain := w.chain + CallEvents(commits, results, 0))
  {
    var s := w.state.(pendingMechanismCommits := map[]);
    var calls, rest := RevealCalls(commits, results, 0), RevealEpilogue(w.state, commits, results);
    var w1 := w.(state := s, file := Some(s));
    ApplyStore(w, s);
    ApplyConcat(w, [Remember(s), Persist], calls + rest);
    ApplyConcat(w1, calls, rest);
    ApplyCalls(w1, commits, results, 0);
    ApplyStore(ApplyAll(w1, calls), s.(lastRevealedEpoch := MarkRevealed(s.lastRevealedEpoch, commits)));
  }

  lemma ApplyStandardReveal(w: Node, result: CallResult)
    requires w.state.pendingCommit.Some?
    ensures var s := w.state.(pendingCommit := None);
            ApplyAll(w, StandardReveal(w.state, result))
            == w.(state := s, file := Some(s),
                  chain := w.chain + Landed(result, [Revealed(w.state.pendingCommit.value.ToReveal())]))
  {
    var s := w.state.(pendingCommit := None);
    var call := OnChain(Landed(result, [Revealed(w.state.pendingCommit.value.ToReveal())]));
    ApplyStore(w, s);
    ApplyConcat(w, [Remember(s), Persist], [call]);
    ApplyOne(w.(state := s, file := Some(s)), call);
    assert [Remember(s), Persist] + [call] == StandardReveal(w.state, result);
  }

  lemma ApplyCommit(w: Node, call: Effect, accepted: bool, s: PersistedCommitState)
    requires call.OnChain?
    ensures ApplyAll(w, [call] + if accepted then [Remember(s), Persist] else [])
            == w.(state := if accepted then s else w.state, file := if accepted then Some(s) else w.file,
                  chain := w.chain + call.events)
  {
    ApplyOne(w, call);
    if accepted {
      ApplyConcat(w, [call], [Remember(s), Persist]);
      ApplyStore(Apply(w, call), s);
    } else {
      assert [call] + [] == [call];
    }
  }

  lemma ApplySetEpoch(w: Node, epoch: u64)
    requires epoch != w.currentEpoch
    ensures var s := w.state.NewEpoch(epoch);
            Exec(w, SetEpoch(epoch)) == w.(state := s, file := Some(s), currentEpoch := epoch)
  {
    var s := w.state.NewEpoch(epoch);
    ApplyCons(w, EnterEpoch(epoch), [Remember(s), Persist]);
    ApplyStore(w.(currentEpoch := epoch), s);
    assert [EnterEpoch(epoch)] + [Remember(s), Persist] == Effects(w, SetEpoch(epoch));
  }

  // ---------------------------------------------------------------- runs with crashes

  /** Either the operation completes, or the process stops after `after` of its effects and restarts. */
  datatype Step = Do(op: Op) | Crash(op: Op, after: nat)

  predicate ValidStep(w: Node, step: Step) {
    && ValidOp(w, step.op)
    && (step.Crash? ==> step.after <= |Effects(w, step.op)|)
  }

  function Next(w: Node, step: Step): Node
    requires ValidStep(w, step)
  {
    match step
    case Do(op) => Exec(w, op)
    case Crash(op, after) => Restart(ApplyAll(w, Effects(w, op)[..after]))
  }

  predicate ValidRun(w: Node, steps: seq<Step>)
    decreases |steps|
  {
    steps == [] || (ValidStep(w, steps[0]) && ValidRun(Next(w, steps[0]), steps[1..]))
  }

  function Run(w: Node, steps: seq<Step>): Node
    requires ValidRun(w, steps)
    decreases |steps|
  {
    if steps == [] then w else Run(Next(w, steps[0]), steps[1..])
  }

  // ---------------------------------------------------------------- the implementation

  datatype Outcome = Nothing | Done | Failed

  class WeightSubmitter {
    var state: PersistedCommitState
    var currentEpoch: u64
    var file: Option<PersistedCommitState>
    var chain: seq<ChainEvent>
    ghost var effects: seq<Effect>

    ghost function Value(): Node
      reads this
    {
      Node(state, currentEpoch, file, chain)
    }

    constructor (file: Option<PersistedCommitState>, chain: seq<ChainEvent>)
      ensures Value() == Restart(Node(DEFAULT_STATE, 0, file, chain))
      ensures effects == []
    {
      this.state := Load(file);
      this.currentEpoch := 0;
      this.file := file;
      this.chain := chain;
      this.effects := [];
    }

    method Assign(s: PersistedCommitState)
      modifies this
      ensures Value() == Apply(old(Value()), Remember(s))
      ensures effects == old(effects) + [Remember(s)]
    {
      state := s;
      effects := effects + [Remember(s)];
    }

    method Save()
      modifies this
      ensures Value() == Apply(old(Value()), Persist)
      ensures effects == old(effects) + [Persist]
    {
      file := Some(state);
      effects := effects + [Persist];
    }

    method Call(events: seq<ChainEvent>, result: CallResult)
      modifies this`chain, this`effects
      ensures chain == old(chain) + Landed(result, events)
      ensures effects == old(effects) + [OnChain(Landed(result, events))]
    {
      chain := chain + Landed(result, events);
      effects := effects + [OnChain(Landed(result, events))];
    }

    method SetEpoch(epoch: u64)
      modifies this
      ensures effects == old(effects) + Effects(old(Value()), Op.SetEpoch(epoch))
      ensures Value() == Exec(old(Value()), Op.SetEpoch(epoch))
    {
      if epoch != currentEpoch {
        ApplySetEpoch(Value(), epoch);
        currentEpoch := epoch;
        effects := effects + [EnterEpoch(epoch)];
        Assign(state.NewEpoch(epoch));
        Save();
      }
    }

    method SubmitWithCommitReveal(prepared: Option<Prepared>, result: CallResult) returns (outcome: Outcome)
      modifies this
      ensures effects == old(effects) + Effects(old(Value()), SubmitStandard(prepared, result))
      ensures Value() == Exec(old(Value()), SubmitStandard(prepared, result))
      ensures outcome.Done? <==> result.Accepted? && (old(state).pendingCommit.Some? || prepared.Some?)
    {
      if state.pendingCommit.Some? {
        outcome := TakeAndReveal(result);
      } else if prepared.None? {
        outcome := Failed;
      } else {
        ApplyCommit(Value(), OnChain(Landed(result, [Committed(Submission(Standard, prepared.value.data))])), result.Accepted?,
                    state.(pendingCommit := Some(StandardPending(prepared.value, currentEpoch))));
        Call([Committed(Submission(Standard, prepared.value.data))], result);
        if result.Accepted? {
          Assign(state.(pendingCommit := Some(StandardPending(prepared.value, currentEpoch))));
          Save();
          outcome := Done;
        } else {
          outcome := Failed;
        }
      }
    }

    method TakeAndReveal(result: CallResult) returns (outcome: Outcome)
      requires state.pendingCommit.Some?
      modifies this
      ensures effects == old(effects) + StandardReveal(old(state), result)
      ensures Value() == ApplyAll(old(Value()), StandardReveal(old(state), result))
      ensures outcome == if result.Accepted? then Done else Failed
    {
      ApplyStandardReveal(Value(), result);
      var pending := state.pendingCommit.value;
      Assign(state.(pendingCommit := None));
      Save();
      Call([Revealed(pending.ToReveal())], result);
      outcome := if result.Accepted? then Done else Failed;
    }

    method ForceReveal(result: CallResult) returns (outcome: Outcome)
      modifies this
      ensures effects == old(effects) + Effects(old(Value()), Op.ForceReveal(result))
      ensures Value() == Exec(old(Value()), Op.ForceReveal(result))
      ensures outcome.Nothing? <==> old(state).pendingCommit.None?
    {
      if state.pendingCommit.Some? {
        outcome := TakeAndReveal(result);
      } else {
        outcome := Nothing;
      }
    }

    static method BatchCalls(batch: seq<BatchEntry>) returns (calls: seq<ChainEvent>)
      ensures calls == CommitEvents(batch)
    {
      calls := [];
      for i := 0 to |batch|
        invariant calls == CommitEvents(batch[..i])
      {
        SplitLast(batch, i);
        calls := calls + [Committed(batch[i].ToCommit())];
      }
      assert batch[..|batch|] == batch;
    }

    static method StorePending(before: map<u8, PendingMechanismCommit>, batch: seq<BatchEntry>, epoch: u64)
      returns (pending: map<u8, PendingMechanismCommit>)
      ensures pending == InsertAll(before, batch, epoch)
    {
      pending := before;
      for i := 0 to |batch|
        invariant pending == InsertAll(before, batch[..i], epoch)
      {
        SplitLast(batch, i);
        pending := pending[batch[i].mechanismId := batch[i].ToPending(epoch)];
      }
      assert batch[..|batch|] == batch;
    }

    method SubmitMechanismBatch(batch: seq<BatchEntry>, result: CallResult) returns (outcome: Outcome)
      modifies this
      ensures effects == old(effects) + Effects(old(Value()), SubmitBatch(batch, result))
      ensures Value() == Exec(old(Value()), SubmitBatch(batch, result))
      ensures outcome.Done? <==> batch != [] && result.Accepted?
    {
      if batch == [] {
        return Failed;
      }
      ApplyCommit(Value(), OnChain(Landed(result, CommitEvents(batch))), result.Accepted?, AfterBatch(state, batch, currentEpoch));
      var calls := BatchCalls(batch);
      Call(calls, result);
      if !result.Accepted? {
        return Failed;
      }
      var pending := StorePending(state.pendingMechanismCommits, batch, currentEpoch);
      Assign(state.(pendingMechanismCommits := pending, committedEpoch := Some(currentEpoch)));
      Save();
      outcome := Done;
    }

    method SendReveals(commits: seq<PendingMechanismCommit>, results: seq<CallResult>) returns (ok: bool)
      requires |commits| == |results|
      modifies this`chain, this`effects
      ensures effects == old(effects) + RevealCalls(commits, results, 0)
      ensures chain == old(chain) + CallEvents(commits, results, 0)
      ensures ok <==> AllAccepted(results)
    {
      for i := 0 to |commits|
        invariant forall j :: 0 <= j < i ==> results[j].Accepted?
        invariant effects == old(effects) + SentUpTo(commits, results, i)
        invariant chain == old(chain) + SeenUpTo(commits, results, i)
      {
        Call([Revealed(commits[i].ToReveal())], results[i]);
        Assoc(old(effects), SentUpTo(commits, results, i), [RevealCall(commits[i], results[i])]);
        Assoc(old(chain), SeenUpTo(commits, results, i), RevealCall(commits[i], results[i]).events);
        if !results[i].Accepted? {
          assert results[i] in results;
          StopsAfter(commits, results, i + 1);
          return false;
        }
      }
      StopsAfter(commits, results, |commits|);
      ok := true;
    }

    method RecordReveals(revealed: seq<PendingMechanismCommit>)
      modifies this
      ensures effects == old(effects) + [
                Remember(old(state).(lastRevealedEpoch := MarkRevealed(old(state).lastRevealedEpoch, revealed))), Persist]
      ensures var s := old(state).(lastRevealedEpoch := MarkRevealed(old(state).lastRevealedEpoch, revealed));
              Value() == old(Value()).(state := s, file := Some(s))
    {
      var marks := state.lastRevealedEpoch;
      for i := 0 to |revealed|
        invariant marks == MarkRevealed(state.lastRevealedEpoch, revealed[..i])
        modifies {}
      {
        SplitLast(revealed, i);
        marks := marks[revealed[i].mechanismId := revealed[i].epoch];
      }
      assert revealed[..|revealed|] == revealed;
      Assign(state.(lastRevealedEpoch := marks));
      Save();
    }

    method RevealPendingMechanismCommits(order: seq<u8>, results: seq<CallResult>) returns (outcome: Outcome)
      requires ValidOp(Value(), RevealBatch(order, results))
      modifies this
      ensures effects == old(effects) + Effects(old(Value()), RevealBatch(order, results))
      ensures Value() == Exec(old(Value()), RevealBatch(order, results))
      ensures outcome.Nothing? <==> old(state).pendingMechanismCommits == map[]
      ensures outcome.Done? <==> old(state).pendingMechanismCommits != map[] && AllAccepted(results)
    {
      if state.pendingMechanismCommits == map[] {
        return Nothing;
      }
      var ok := DrainAndReveal(Drained(state.pendingMechanismCommits, order), results);
      outcome := if ok then Done else Failed;
    }

    method DrainAndReveal(commits: seq<PendingMechanismCommit>, results: seq<CallResult>) returns (ok: bool)
      requires |commits| == |results|
      modifies this
      ensures effects == old(effects) + MechanismReveals(old(state), commits, results)
      ensures Value() == ApplyAll(old(Value()), MechanismReveals(old(state), commits, results))
      ensures ok <==> AllAccepted(results)
    {
      ApplyReveals(Value(), commits, results);
      ghost var start, drained := effects, state.(pendingMechanismCommits := map[]);
      Assign(state.(pendingMechanismCommits := map[]));
      Save();
      ghost var calls := RevealCalls(commits, results, 0);
      ok := SendReveals(commits, results);
      assert effects == (start + [Remember(drained)] + [Persist]) + calls;
      if ok {
        RecordReveals(commits);
      }
      Regroup(start, Remember(drained), Persist, calls, RevealEpilogue(old(state), commits, results));
    }
  }
}
