/**
 * The chain state: validators with capacity and minimum stake, challenges, a job queue, and a state
 * hash over a short summary. SHA-256 is left uninterpreted: `stateHash` is the summary it was taken of.
 */
module Chain {
  import opened Base

  datatype Hotkey = Hotkey(bytes: seq<u8>)

  datatype ValidatorInfo = ValidatorInfo(hotkey: Hotkey, stake: u64, isActive: bool,
                                         peerId: Option<string>, x25519Pubkey: Option<string>)

  function NewValidator(hotkey: Hotkey, stake: u64): ValidatorInfo {
    ValidatorInfo(hotkey, stake, true, None, None)
  }

  datatype JobStatus = Pending | Running | Completed | Failed | Timeout

  datatype Job = Job(id: nat, challengeId: nat, agentHash: string, status: JobStatus, assignedValidator: Option<Hotkey>)

  datatype NetworkConfig = NetworkConfig(minStake: u64, maxValidators: nat, consensusThreshold: real)

  /** The input of the state hash. */
  datatype Summary = Summary(blockHeight: nat, sudoKey: Hotkey, validatorCount: nat, challengeCount: nat, pendingJobs: nat)

  datatype State = State(blockHeight: nat, config: NetworkConfig, sudoKey: Hotkey,
                         validators: map<Hotkey, ValidatorInfo>, challenges: map<nat, string>,
                         pendingJobs: seq<Job>, stateHash: Summary)
  {
    function Summarise(): Summary {
      Summary(blockHeight, sudoKey, |validators|, |challenges|, |pendingJobs|)
    }

    function Rehash(): State {
      this.(stateHash := Summarise())
    }
  }

  function New(sudoKey: Hotkey, config: NetworkConfig): State {
    State(0, config, sudoKey, map[], map[], [], Summary(0, sudoKey, 0, 0, 0)).Rehash()
  }

  // ---------------------------------------------------------------- operations

  predicate Admits(s: State, info: ValidatorInfo) {
    |s.validators| < s.config.maxValidators && info.stake >= s.config.minStake
  }

  /** The first job nobody has been assigned, or the queue's length. */
  function FirstUnassigned(jobs: seq<Job>, i: nat): (pos: nat)
    requires i <= |jobs|
    ensures i <= pos <= |jobs|
    ensures pos < |jobs| ==> jobs[pos].assignedValidator.None?
    ensures forall j :: i <= j < pos ==> jobs[j].assignedValidator.Some?
    decreases |jobs| - i
  {
    if i == |jobs| || jobs[i].assignedValidator.None? then i else FirstUnassigned(jobs, i + 1)
  }

  function WithoutFirst(jobs: seq<Job>): seq<Job> {
    var pos := FirstUnassigned(jobs, 0);
    if pos < |jobs| then jobs[..pos] + jobs[pos + 1..] else jobs
  }

  datatype Op =
    | AddValidator(info: ValidatorInfo)
    | RemoveValidator(hotkey: Hotkey)
    | AddChallenge(id: nat, name: string)
    | RemoveChallenge(challengeId: nat)
    | AddJob(job: Job)
    | ClaimJob(validator: Hotkey)
    | IncrementBlock

  function Apply(s: State, op: Op): State {
    match op
    case AddValidator(info) =>
      if Admits(s, info) then s.(validators := s.validators[info.hotkey := info]).Rehash() else s
    case RemoveValidator(hotkey) =>
      if hotkey in s.validators then s.(validators := s.validators - {hotkey}).Rehash() else s
    case AddChallenge(id, name) => s.(challenges := s.challenges[id := name]).Rehash()
    case RemoveChallenge(id) =>
      if id in s.challenges then s.(challenges := s.challenges - {id}).Rehash() else s
    case AddJob(job) => s.(pendingJobs := s.pendingJobs + [job]).Rehash()
    case ClaimJob(_) =>
      if FirstUnassigned(s.pendingJobs, 0) < |s.pendingJobs|
      then s.(pendingJobs := WithoutFirst(s.pendingJobs)).Rehash() else s
    case IncrementBlock => s.(blockHeight := s.blockHeight + 1).Rehash()
  }

  class ChainState {
    var blockHeight: nat
    const config: NetworkConfig
    const sudoKey: Hotkey
    var validators: map<Hotkey, ValidatorInfo>
    var challenges: map<nat, string>
    var pendingJobs: seq<Job>
    var stateHash: Summary

    function Value(): State
      reads this
    {
      State(blockHeight, config, sudoKey, validators, challenges, pendingJobs, stateHash)
    }

    constructor (sudoKey: Hotkey, config: NetworkConfig)
      ensures Value() == New(sudoKey, config)
    {
      this.blockHeight, this.config, this.sudoKey := 0, config, sudoKey;
      this.validators, this.challenges, this.pendingJobs := map[], map[], [];
      this.stateHash := Summary(0, sudoKey, 0, 0, 0);
      new;
      UpdateHash();
    }

    method UpdateHash()
      modifies this`stateHash
      ensures Value() == old(Value()).Rehash()
    {
      stateHash := Summary(blockHeight, sudoKey, |validators|, |challenges|, |pendingJobs|);
    }

    method AddValidator(info: ValidatorInfo) returns (ok: bool)
      modifies this
      ensures Value() == Apply(old(Value()), Op.AddValidator(info))
      ensures ok == Admits(old(Value()), info)
    {
      if |validators| >= config.maxValidators || info.stake < config.minStake {
        return false;
      }
      validators := validators[info.hotkey := info];
      UpdateHash();
      ok := true;
    }

    method RemoveValidator(hotkey: Hotkey) returns (removed: Option<ValidatorInfo>)
      modifies this
      ensures Value() == Apply(old(Value()), Op.RemoveValidator(hotkey))
      ensures removed == if hotkey in old(validators) then Some(old(validators)[hotkey]) else None
    {
      removed := None;
      if hotkey in validators {
        removed := Some(validators[hotkey]);
        validators := validators - {hotkey};
        UpdateHash();
      }
    }

    method AddChallenge(id: nat, name: string)
      modifies this
      ensures Value() == Apply(old(Value()), Op.AddChallenge(id, name))
    {
      challenges := challenges[id := name];
      UpdateHash();
    }

    method RemoveChallenge(id: nat) returns (removed: Option<string>)
      modifies this
      ensures Value() == Apply(old(Value()), Op.RemoveChallenge(id))
      ensures removed == if id in old(challenges) then Some(old(challenges)[id]) else None
    {
      removed := None;
      if id in challenges {
        removed := Some(challenges[id]);
        challenges := challenges - {id};
        UpdateHash();
      }
    }

    method AddJob(job: Job)
      modifies this
      ensures Value() == Apply(old(Value()), Op.AddJob(job))
    {
      pendingJobs := pendingJobs + [job];
      UpdateHash();
    }

    method ClaimJob(validator: Hotkey) returns (claimed: Option<Job>)
      modifies this
      ensures Value() == Apply(old(Value()), Op.ClaimJob(validator))
      ensures claimed == HandedOut(old(pendingJobs), validator)
    {
      var pos := 0;
      while pos < |pendingJobs| && pendingJobs[pos].assignedValidator.Some?
        invariant 0 <= pos <= |pendingJobs|
        invariant FirstUnassigned(pendingJobs, pos) == FirstUnassigned(pendingJobs, 0)
        modifies {}
      {
        pos := pos + 1;
      }
      claimed := None;
      if pos < |pendingJobs| {
        var job := pendingJobs[pos];
        pendingJobs := pendingJobs[..pos] + pendingJobs[pos + 1..];
        claimed := Some(job.(assignedValidator := Some(validator), status := Running));
        UpdateHash();
      }
    }

    method IncrementBlock()
      modifies this
      ensures Value() == Apply(old(Value()), Op.IncrementBlock)
    {
      blockHeight := blockHeight + 1;
      UpdateHash();
    }
  }

  /** What a claim returns: the oldest unassigned job, now running and assigned to the claimant. */
  function HandedOut(jobs: seq<Job>, validator: Hotkey): Option<Job> {
    var pos := FirstUnassigned(jobs, 0);
    if pos < |jobs| then Some(jobs[pos].(assignedValidator := Some(validator), status := Running)) else None
  }

  // ---------------------------------------------------------------- runs

  function Run(s: State, ops: seq<Op>): State {
    if ops == [] then s else Apply(Run(s, ops[..|ops| - 1]), ops[|ops| - 1])
  }

  function AddedBy(op: Op): seq<Job> {
    if op.AddJob? then [op.job] else []
  }

  /** The job a claim takes off the queue, as it was queued. */
  function TakenBy(jobs: seq<Job>, op: Op): seq<Job> {
    var pos := FirstUnassigned(jobs, 0);
    if op.ClaimJob? && pos < |jobs| then [jobs[pos]] else []
  }

  function ClaimedBy(jobs: seq<Job>, op: Op): seq<Job> {
    if op.ClaimJob? && HandedOut(jobs, op.validator).Some? then [HandedOut(jobs, op.validator).value] else []
  }

  function JobsAdded(ops: seq<Op>): seq<Job> {
    if ops == [] then [] else JobsAdded(ops[..|ops| - 1]) + AddedBy(ops[|ops| - 1])
  }

  function JobsTaken(s: State, ops: seq<Op>): seq<Job> {
    if ops == [] then []
    else JobsTaken(s, ops[..|ops| - 1]) + TakenBy(Run(s, ops[..|ops| - 1]).pendingJobs, ops[|ops| - 1])
  }

  /** The jobs handed out along a run, as returned to the claimants, in order. */
  function JobsClaimed(s: State, ops: seq<Op>): seq<Job> {
    if ops == [] then []
    else JobsClaimed(s, ops[..|ops| - 1]) + ClaimedBy(Run(s, ops[..|ops| - 1]).pendingJobs, ops[|ops| - 1])
  }

  /** The jobs that were already assigned when they were added, or those that were not, in order. */
  function Select(jobs: seq<Job>, assignedAlready: bool): seq<Job> {
    if jobs == [] then []
    else
      var last := jobs[|jobs| - 1];
      Select(jobs[..|jobs| - 1], assignedAlready) + if last.assignedValidator.Some? == assignedAlready then [last] else []
  }

  /** `handed` lists the jobs of `jobs` in order, each assigned to some validator and running. */
  ghost predicate HandedFrom(handed: seq<Job>, jobs: seq<Job>) {
    && |handed| == |jobs|
    && forall i :: 0 <= i < |jobs| ==>
                     && handed[i].assignedValidator.Some?
                     && handed[i] == jobs[i].(assignedValidator := handed[i].assignedValidator, status := Running)
  }

  ghost predicate Sound(s: State) {
    && s.stateHash == s.Summarise()
    && |s.validators| <= s.config.maxValidators
    && forall h :: h in s.validators ==> s.validators[h].hotkey == h && s.validators[h].stake >= s.config.minStake
  }

  lemma AddKeepsSound(s: State, info: ValidatorInfo)
    requires Sound(s) && Admits(s, info)
    ensures Sound(s.(validators := s.validators[info.hotkey := info]).Rehash())
  {
    assert s.validators[info.hotkey := info].Keys == s.validators.Keys + {info.hotkey};
  }

  lemma RemoveKeepsSound(s: State, hotkey: Hotkey)
    requires Sound(s)
    ensures Sound(s.(validators := s.validators - {hotkey}).Rehash())
  {
    var smaller := s.validators - {hotkey};
    assert smaller.Keys <= s.validators.Keys;
    assert |smaller.Keys| <= |s.validators.Keys|;
  }

  lemma ApplySound(s: State, op: Op)
    requires Sound(s)
    ensures Sound(Apply(s, op)) && Apply(s, op).config == s.config
  {
    match op
    case AddValidator(info) =>
      if Admits(s, info) {
        AddKeepsSound(s, info);
      }
    case RemoveValidator(hotkey) =>
      if hotkey in s.validators {
        RemoveKeepsSound(s, hotkey);
      }
    case _ =>
  }

  lemma {:induction false} SelectConcat(a: seq<Job>, b: seq<Job>, want: bool)
    ensures Select(a + b, want) == Select(a, want) + Select(b, want)
  {
    if b == [] {
      assert a + b == a;
    } else {
      SelectConcat(a, b[..|b| - 1], want);
      assert (a + b)[..|a + b| - 1] == a + b[..|b| - 1];
    }
  }

  lemma {:induction false} AllAssigned(jobs: seq<Job>)
    requires forall i :: 0 <= i < |jobs| ==> jobs[i].assignedValidator.Some?
    ensures Select(jobs, false) == []
  {
    if jobs == [] {
    } else {
      AllAssigned(jobs[..|jobs| - 1]);
    }
  }

  lemma SelectOne(j: Job, want: bool)
    ensures Select([j], want) == if j.assignedValidator.Some? == want then [j] else []
  {
    assert [j][..0] == [];
  }

  lemma SelectAround(pre: seq<Job>, job: Job, tail: seq<Job>, want: bool)
    ensures Select(pre + ([job] + tail), want) == Select(pre, want) + (Select([job], want) + Select(tail, want))
    ensures Select(pre + tail, want) == Select(pre, want) + Select(tail, want)
  {
    SelectConcat(pre, [job] + tail, want);
    SelectConcat([job], tail, want);
    SelectConcat(pre, tail, want);
  }

  lemma EmptyLeft<T>(a: seq<T>)
    ensures [] + a == a
  {
  }

  /** Claiming takes the head of the unassigned jobs and leaves everything else in place. */
  lemma ClaimTakesHead(pre: seq<Job>, job: Job, tail: seq<Job>)
    requires forall i :: 0 <= i < |pre| ==> pre[i].assignedValidator.Some?
    requires job.assignedValidator.None?
    ensures Select(pre + ([job] + tail), false) == [job] + Select(pre + tail, false)
    ensures Select(pre + ([job] + tail), true) == Select(pre + tail, true)
  {
    AllAssigned(pre);
    SelectAround(pre, job, tail, false);
    SelectAround(pre, job, tail, true);
    SelectOne(job, false);
    SelectOne(job, true);
    EmptyLeft(Select(tail, false));
    EmptyLeft([job] + Select(tail, false));
    EmptyLeft(Select(tail, true));
  }

  lemma {:induction false} RunSound(s: State, ops: seq<Op>)
    requires Sound(s)
    ensures Sound(Run(s, ops)) && Run(s, ops).config == s.config
  {
    if ops == [] {
    } else {
      RunSound(s, ops[..|ops| - 1]);
      ApplySound(Run(s, ops[..|ops| - 1]), ops[|ops| - 1]);
    }
  }

  /** First in, first out: the unassigned jobs added are those taken, then those still queued; the others all stay. */
  ghost predicate Fifo(added: seq<Job>, taken: seq<Job>, queued: seq<Job>) {
    Select(added, false) == taken + Select(queued, false) && Select(added, true) == Select(queued, true)
  }

  lemma FifoAdd(added: seq<Job>, taken: seq<Job>, queued: seq<Job>, job: Job)
    requires Fifo(added, taken, queued)
    ensures Fifo(added + [job], taken, queued + [job])
  {
    SelectConcat(added, [job], false);
    SelectConcat(added, [job], true);
    SelectConcat(queued, [job], false);
    SelectConcat(queued, [job], true);
    assert (taken + Select(queued, false)) + Select([job], false) == taken + (Select(queued, false) + Select([job], false));
  }

  lemma FifoClaim(added: seq<Job>, taken: seq<Job>, queued: seq<Job>, pre: seq<Job>, job: Job, tail: seq<Job>)
    requires Fifo(added, taken, queued) && queued == pre + ([job] + tail)
    requires forall i :: 0 <= i < |pre| ==> pre[i].assignedValidator.Some?
    requires job.assignedValidator.None?
    ensures Fifo(added, taken + [job], pre + tail)
  {
    ClaimTakesHead(pre, job, tail);
    var rest := Select(pre + tail, false);
    assert taken + ([job] + rest) == (taken + [job]) + rest;
  }

  function NextQueue(queued: seq<Job>, op: Op): seq<Job> {
    match op
    case AddJob(job) => queued + [job]
    case ClaimJob(_) => WithoutFirst(queued)
    case _ => queued
  }

  lemma QueueOf(s: State, op: Op)
    ensures Apply(s, op).pendingJobs == NextQueue(s.pendingJobs, op)
  {
  }

  lemma FifoStep(added: seq<Job>, taken: seq<Job>, queued: seq<Job>, op: Op)
    requires Fifo(added, taken, queued)
    ensures Fifo(added + AddedBy(op), taken + TakenBy(queued, op), NextQueue(queued, op))
  {
    EmptyRight(added);
    EmptyRight(taken);
    if op.AddJob? {
      FifoAdd(added, taken, queued, op.job);
    } else if op.ClaimJob? {
      var pos := FirstUnassigned(queued, 0);
      if pos < |queued| {
        FifoTake(added, taken, queued, pos);
      }
    }
  }

  lemma SplitAt<T>(s: seq<T>, pos: nat)
    requires pos < |s|
    ensures s == s[..pos] + ([s[pos]] + s[pos + 1..])
  {
  }

  lemma FifoTake(added: seq<Job>, taken: seq<Job>, queued: seq<Job>, pos: nat)
    requires Fifo(added, taken, queued) && pos == FirstUnassigned(queued, 0) < |queued|
    ensures Fifo(added, taken + [queued[pos]], queued[..pos] + queued[pos + 1..])
  {
    SplitAt(queued, pos);
    FifoClaim(added, taken, queued, queued[..pos], queued[pos], queued[pos + 1..]);
  }

  lemma {:induction false} RunFifo(s: State, ops: seq<Op>)
    requires s.pendingJobs == []
    ensures Fifo(JobsAdded(ops), JobsTaken(s, ops), Run(s, ops).pendingJobs)
  {
    if ops == [] {
    } else {
      var init, op := ops[..|ops| - 1], ops[|ops| - 1];
      RunFifo(s, init);
      FifoStep(JobsAdded(init), JobsTaken(s, init), Run(s, init).pendingJobs, op);
      QueueOf(Run(s, init), op);
    }
  }

  lemma {:induction false} RunHanded(s: State, ops: seq<Op>)
    ensures HandedFrom(JobsClaimed(s, ops), JobsTaken(s, ops))
  {
    if ops == [] {
    } else {
      RunHanded(s, ops[..|ops| - 1]);
    }
  }

  /**
   * Over every run from `new`: the state hash is current, the validators fit the capacity and all
   * meet the minimum stake, and jobs are conserved. The unassigned jobs added are, in order, those
   * handed out (each returned once, running and assigned) followed by those still queued; jobs added
   * with an assignee stay queued.
   */
  lemma EveryRun(sudoKey: Hotkey, config: NetworkConfig, ops: seq<Op>)
    ensures var s := Run(New(sudoKey, config), ops);
            && s.stateHash == s.Summarise()
            && |s.validators| <= config.maxValidators
            && (forall h :: h in s.validators ==> s.validators[h].stake >= config.minStake)
    ensures var s0 := New(sudoKey, config);
            && Fifo(JobsAdded(ops), JobsTaken(s0, ops), Run(s0, ops).pendingJobs)
            && HandedFrom(JobsClaimed(s0, ops), JobsTaken(s0, ops))
  {
    RunSound(New(sudoKey, config), ops);
    RunFifo(New(sudoKey, config), ops);
    RunHanded(New(sudoKey, config), ops);
  }

  // ---------------------------------------------------------------- thresholds

  function CeilMul(n: nat, t: real): int {
    -((-(n as real * t)).Floor)
  }

  /**
   * With the default threshold of one half, the number of validators needed is a strict majority of
   * the active ones exactly when their number is odd.
   */
  lemma HalfIsMajority(active: nat)
    ensures 2 * CeilMul(active, 0.5) > active <==> active % 2 == 1
  {
    var half := active / 2;
    assert active as real * 0.5 == half as real + if active % 2 == 1 then 0.5 else 0.0;
  }

  lemma ThresholdIsCeiling(n: nat, t: real)
    ensures CeilMul(n, t) as real - 1.0 < n as real * t <= CeilMul(n, t) as real
  {
  }

  // ---------------------------------------------------------------- what each operation changes

  /** Everything but the map of validators, which gains or loses one, and the hash. */
  ghost predicate SameButValidators(s: State, s': State) {
    s' == s.(validators := s'.validators, stateHash := s'.stateHash)
  }

  /** A validator is added, or its record replaced, if and only if there is room and the stake suffices. */
  lemma AddValidatorOutcome(s: State, info: ValidatorInfo, h: Hotkey)
    ensures var s' := Apply(s, AddValidator(info));
            && SameButValidators(s, s')
            && (h != info.hotkey ==> (h in s'.validators <==> h in s.validators))
            && (h != info.hotkey && h in s.validators ==> s'.validators[h] == s.validators[h])
            && (|s.validators| < s.config.maxValidators && info.stake >= s.config.minStake ==>
                  info.hotkey in s'.validators && s'.validators[info.hotkey] == info)
            && (|s.validators| >= s.config.maxValidators || info.stake < s.config.minStake ==> s' == s)
  {
  }

  lemma RemoveValidatorOutcome(s: State, hotkey: Hotkey, h: Hotkey)
    ensures var s' := Apply(s, RemoveValidator(hotkey));
            && SameButValidators(s, s')
            && (h in s'.validators <==> h in s.validators && h != hotkey)
            && (h in s'.validators ==> s'.validators[h] == s.validators[h])
            && (hotkey !in s.validators ==> s' == s)
  {
  }

  lemma ChallengeOutcome(s: State, id: nat, name: string, other: nat)
    ensures var added, removed := Apply(s, AddChallenge(id, name)), Apply(s, RemoveChallenge(id));
            && added == s.(challenges := added.challenges, stateHash := added.stateHash)
            && removed == s.(challenges := removed.challenges, stateHash := removed.stateHash)
            && id in added.challenges && added.challenges[id] == name && id !in removed.challenges
            && (other != id && other in s.challenges ==>
                  && other in added.challenges && added.challenges[other] == s.challenges[other]
                  && other in removed.challenges && removed.challenges[other] == s.challenges[other])
            && (other != id && other !in s.challenges ==> other !in added.challenges && other !in removed.challenges)
  {
  }

  /** Blocks counted along a run. */
  function Blocks(ops: seq<Op>): nat {
    if ops == [] then 0 else Blocks(ops[..|ops| - 1]) + if ops[|ops| - 1].IncrementBlock? then 1 else 0
  }

  /** The height is the number of increments; no other operation moves it. */
  lemma {:induction false} HeightCountsBlocks(s: State, ops: seq<Op>)
    ensures Run(s, ops).blockHeight == s.blockHeight + Blocks(ops)
    ensures Run(s, ops).sudoKey == s.sudoKey && Run(s, ops).config == s.config
  {
    if ops == [] {
    } else {
      HeightCountsBlocks(s, ops[..|ops| - 1]);
    }
  }

  /** The operation moves the height or one of the three counts. */
  predicate Moves(s: State, op: Op) {
    match op
    case AddValidator(info) => Admits(s, info) && info.hotkey !in s.validators
    case RemoveValidator(hotkey) => hotkey in s.validators
    case AddChallenge(id, _) => id !in s.challenges
    case RemoveChallenge(id) => id in s.challenges
    case AddJob(_) => true
    case ClaimJob(_) => exists i :: 0 <= i < |s.pendingJobs| && s.pendingJobs[i].assignedValidator.None?
    case IncrementBlock => true
  }

  lemma SizeAfter<K, V>(m: map<K, V>, k: K, v: V)
    ensures |m[k := v]| == |m| + if k in m then 0 else 1
  {
    assert m[k := v].Keys == m.Keys + {k};
  }

  lemma SizeWithout<K, V>(m: map<K, V>, k: K)
    ensures |m - {k}| == |m| - if k in m then 1 else 0
  {
    assert (m - {k}).Keys == m.Keys - {k};
  }

  /**
   * The state hash notices an operation if and only if it adds or takes away a validator, a challenge or a
   * job, or a block: a record replaced in place leaves it as it was.
   */
  lemma HashMovesExactly(s: State, op: Op)
    requires Sound(s)
    ensures Apply(s, op).stateHash != s.stateHash <==> Moves(s, op)
  {
    match op
    case AddValidator(info) => SizeAfter(s.validators, info.hotkey, info);
    case RemoveValidator(hotkey) => SizeWithout(s.validators, hotkey);
    case AddChallenge(id, name) => SizeAfter(s.challenges, id, name);
    case RemoveChallenge(id) => SizeWithout(s.challenges, id);
    case ClaimJob(_) => UnassignedIsFound(s.pendingJobs);
    case _ =>
  }

  lemma UnassignedIsFound(jobs: seq<Job>)
    ensures FirstUnassigned(jobs, 0) < |jobs| <==> exists i :: 0 <= i < |jobs| && jobs[i].assignedValidator.None?
    ensures FirstUnassigned(jobs, 0) < |jobs| ==> |WithoutFirst(jobs)| == |jobs| - 1
  {
  }
}
