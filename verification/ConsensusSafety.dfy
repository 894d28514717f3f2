/**
 * Safety of the consensus engines over every run of a network: honest validators run the engine,
 * the others sign what they like, messages arrive in any order, get lost or repeat, engines restart
 * and move to any view at any time.
 */
module ConsensusSafety {
  import opened Base
  import opened Consensus

  type Signatures = set<(Hotkey, Vote)>

  /**
   * `signed` records every vote ever signed, `decided` every decision ever made by an engine, and `asked`
   * every view-change message ever signed.
   */
  datatype World = World(engines: map<Hotkey, Engine>, signed: Signatures, decided: set<(Hotkey, Decision)>,
                         asked: set<(Hotkey, nat)>)

  /** `Ask` signs a view-change message, by an engine or by anyone else. */
  datatype Step =
    | At(who: Hotkey, op: Op)
    | Restart(who: Hotkey)
    | Elsewhere(who: Hotkey, vote: Vote)
    | Ask(who: Hotkey, view: nat)

  /** Signatures cannot be forged: one that verifies was made. */
  predicate Genuine(op: Op, signed: Signatures) {
    match op
    case HandleProposal(p) => p.valid ==> (p.proposer, Vote(p.view, p.sequence, p.content.dataHash)) in signed
    case HandlePrepare(m) => m.valid ==> (m.validator, m.vote) in signed
    case HandleCommit(m) => m.valid ==> (m.validator, m.vote) in signed
    case _ => true
  }

  predicate ValidStep(w: World, step: Step) {
    match step
    case At(who, op) => who in w.engines && Genuine(op, w.signed)
    case Restart(who) => who in w.engines
    case Elsewhere(who, _) => who !in w.engines
    case Ask(who, view) => who in w.engines ==> view > w.engines[who].view
  }

  function SignedBy(who: Hotkey, reply: Reply): Signatures {
    if reply.Voted? then {(who, reply.vote)} else {}
  }

  function DecidedBy(who: Hotkey, reply: Reply): set<(Hotkey, Decision)> {
    if reply.Decided? then {(who, reply.decision)} else {}
  }

  function Next(net: Committee, w: World, step: Step): World
    requires ValidStep(w, step)
  {
    match step
    case At(who, op) =>
      var (e, reply) := Exec(net, w.engines[who], op);
      w.(engines := w.engines[who := e], signed := w.signed + SignedBy(who, reply), decided := w.decided + DecidedBy(who, reply))
    case Restart(who) => w.(engines := w.engines[who := NewEngine(who)])
    case Elsewhere(who, vote) => w.(signed := w.signed + {(who, vote)})
    case Ask(who, view) => w.(asked := w.asked + {(who, view)})
  }

  predicate ValidRun(net: Committee, w: World, steps: seq<Step>)
    decreases |steps|
  {
    steps == [] || (ValidStep(w, steps[0]) && ValidRun(net, Next(net, w, steps[0]), steps[1..]))
  }

  function Run(net: Committee, w: World, steps: seq<Step>): World
    requires ValidRun(net, w, steps)
    decreases |steps|
  {
    if steps == [] then w else Run(net, Next(net, w, steps[0]), steps[1..])
  }

  function Start(honest: set<Hotkey>): World {
    World(map h | h in honest :: NewEngine(h), {}, {}, {})
  }

  // ---------------------------------------------------------------- the invariant of one engine

  predicate LeaderSigned(net: Committee, vote: Vote, signed: Signatures) {
    net.Leader(vote.view).Some? && (net.Leader(vote.view).value, vote) in signed
  }

  /** Each message stands under its sender, who is registered (or is this engine) and signed that vote. */
  ghost predicate Collected(net: Committee, me: Hotkey, messages: map<Hotkey, Message>, vote: Vote,
        signed: Signatures) {
    forall h :: h in messages ==> (h == me || h in net.validators) && (h, vote) in signed
  }

  /** A configuration update comes from the sudo key, leading the view. */
  predicate Authorised(net: Committee, view: nat, content: Content) {
    content.isConfigUpdate ==> net.Leader(view) == Some(net.sudoKey)
  }

  ghost predicate RoundSound(net: Committee, e: Engine, r: Round, signed: Signatures) {
    && r.view == e.view && r.sequence == e.next
    && r.hash == r.content.dataHash == net.digest(r.content.data)
    && Authorised(net, r.view, r.content)
    && LeaderSigned(net, r.ToVote(), signed)
    && (r.phase == Prepared ==> |r.prepares| >= net.Quorum() && e.me in r.commits)
    && Collected(net, e.me, r.prepares, r.ToVote(), signed)
    && Collected(net, e.me, r.commits, r.ToVote(), signed)
  }

  /**
   * A quorum of distinct validators, this one among them, signed exactly what was decided; its data
   * has the hash they signed, and a configuration update was the sudo key's.
   */
  ghost predicate Certified(net: Committee, me: Hotkey, d: Decision, signed: Signatures) {
    && |d.commits| >= net.Quorum() && me in d.commits
    && Authorised(net, d.view, d.content)
    && Collected(net, me, d.commits, d.ToVote(), signed)
    && d.content.dataHash == net.digest(d.content.data)
  }

  ghost predicate EngineSound(net: Committee, e: Engine, signed: Signatures) {
    && e.next > 0
    && (e.round.Some? ==> RoundSound(net, e, e.round.value, signed))
    && (forall s :: s in e.decisions <==> 1 <= s < e.next)
    && (forall s :: s in e.decisions ==> e.decisions[s].sequence == s && Certified(net, e.me, e.decisions[s], signed))
  }

  lemma CollectedStays(net: Committee, me: Hotkey, messages: map<Hotkey, Message>, vote: Vote, signed: Signatures,
        more: Signatures)
    requires Collected(net, me, messages, vote, signed) && signed <= more
    ensures Collected(net, me, messages, vote, more)
  {
  }

  lemma SoundStays(net: Committee, e: Engine, signed: Signatures, more: Signatures)
    requires EngineSound(net, e, signed) && signed <= more
    ensures EngineSound(net, e, more)
  {
    forall s | s in e.decisions ensures Certified(net, e.me, e.decisions[s], more) {
      assert Certified(net, e.me, e.decisions[s], signed);
    }
  }

  /**
   * What one operation guarantees: the engine stays sound, it signs only what the view's leader
   * signed, and it decides only with a certificate.
   */
  ghost predicate StepKeeps(net: Committee, e: Engine, op: Op, signed: Signatures) {
    var (e', reply) := Exec(net, e, op);
    var signed' := signed + SignedBy(e.me, reply);
    && e'.me == e.me
    && EngineSound(net, e', signed')
    && (reply.Voted? ==> LeaderSigned(net, reply.vote, signed'))
    && (reply.Decided? ==> Certified(net, e.me, reply.decision, signed'))
  }

  lemma OnPrepareKeeps(net: Committee, e: Engine, m: Message, signed: Signatures)
    requires EngineSound(net, e, signed) && Genuine(HandlePrepare(m), signed)
    ensures StepKeeps(net, e, HandlePrepare(m), signed)
  {
    SoundStays(net, e, signed, signed + SignedBy(e.me, OnPrepare(net, e, m).1));
  }

  lemma OnCommitKeeps(net: Committee, e: Engine, m: Message, signed: Signatures)
    requires EngineSound(net, e, signed) && Genuine(HandleCommit(m), signed)
    ensures StepKeeps(net, e, HandleCommit(m), signed)
  {
    SoundStays(net, e, signed, signed + SignedBy(e.me, OnCommit(net, e, m).1));
  }

  lemma ProposingKeeps(net: Committee, e: Engine, isConfigUpdate: bool, data: seq<u8>, signed: Signatures)
    requires EngineSound(net, e, signed)
    ensures StepKeeps(net, e, CreateProposal(isConfigUpdate, data), signed)
  {
    SoundStays(net, e, signed, signed + SignedBy(e.me, Proposing(net, e, isConfigUpdate, data).1));
  }

  lemma OnProposalKeeps(net: Committee, e: Engine, p: Proposal, signed: Signatures)
    requires EngineSound(net, e, signed) && Genuine(HandleProposal(p), signed)
    ensures StepKeeps(net, e, HandleProposal(p), signed)
  {
    SoundStays(net, e, signed, signed + SignedBy(e.me, OnProposal(net, e, p).1));
  }

  lemma PrePreparingKeeps(net: Committee, e: Engine, vote: Vote, signed: Signatures)
    requires EngineSound(net, e, signed)
    ensures StepKeeps(net, e, CreatePrePrepare(vote), signed)
  {
    SoundStays(net, e, signed, signed + SignedBy(e.me, PrePreparing(net, e, vote).1));
  }

  lemma StepSound(net: Committee, e: Engine, op: Op, signed: Signatures)
    requires EngineSound(net, e, signed) && Genuine(op, signed)
    ensures StepKeeps(net, e, op, signed)
  {
    match op
    case CreateProposal(isConfigUpdate, data) => ProposingKeeps(net, e, isConfigUpdate, data, signed);
    case HandleProposal(p) => OnProposalKeeps(net, e, p, signed);
    case CreatePrePrepare(vote) => PrePreparingKeeps(net, e, vote, signed);
    case HandlePrepare(m) => OnPrepareKeeps(net, e, m, signed);
    case HandleCommit(m) => OnCommitKeeps(net, e, m, signed);
    case EnterView(_) => SoundStays(net, e, signed, signed + {});
  }

  // ---------------------------------------------------------------- the network

  /** Whatever an honest validator signed, the leader of that view signed too. */
  ghost predicate Followed(net: Committee, w: World) {
    forall h, v :: (h, v) in w.signed && h in w.engines ==> LeaderSigned(net, v, w.signed)
  }

  ghost predicate WorldSound(net: Committee, w: World) {
    && (forall h :: h in w.engines ==> w.engines[h].me == h && EngineSound(net, w.engines[h], w.signed))
    && Followed(net, w)
    && (forall h, d :: (h, d) in w.decided ==> h in w.engines && Certified(net, h, d, w.signed))
  }

  /** New signatures and decisions, and engines that are sound with them, keep the network sound. */
  lemma Extend(net: Committee, w: World, engines: map<Hotkey, Engine>, more: Signatures, news: set<(Hotkey, Decision)>)
    requires WorldSound(net, w) && engines.Keys == w.engines.Keys
    requires forall h :: h in engines ==> engines[h].me == h && EngineSound(net, engines[h], w.signed + more)
    requires forall h, v :: (h, v) in more && h in engines ==> LeaderSigned(net, v, w.signed + more)
    requires forall h, d :: (h, d) in news ==> h in engines && Certified(net, h, d, w.signed + more)
    ensures WorldSound(net, w.(engines := engines, signed := w.signed + more, decided := w.decided + news))
  {
    var w' := w.(engines := engines, signed := w.signed + more, decided := w.decided + news);
    forall h, d | (h, d) in w'.decided ensures h in engines && Certified(net, h, d, w'.signed) {
      if (h, d) in w.decided {
        CollectedStays(net, h, d.commits, d.ToVote(), w.signed, w'.signed);
      }
    }
  }

  /** The engines other than `who` stay sound as signatures are added. */
  lemma Others(net: Committee, w: World, who: Hotkey, e: Engine, more: Signatures)
    requires WorldSound(net, w) && who in w.engines && e.me == who && EngineSound(net, e, w.signed + more)
    ensures var engines := w.engines[who := e];
            forall h :: h in engines ==> engines[h].me == h && EngineSound(net, engines[h], w.signed + more)
  {
    forall h | h in w.engines ensures EngineSound(net, w.engines[h], w.signed + more) {
      SoundStays(net, w.engines[h], w.signed, w.signed + more);
    }
  }

  lemma NextSound(net: Committee, w: World, step: Step)
    requires WorldSound(net, w) && ValidStep(w, step)
    ensures WorldSound(net, Next(net, w, step)) && Next(net, w, step).engines.Keys == w.engines.Keys
  {
    match step
    case At(who, op) =>
      var (e, reply) := Exec(net, w.engines[who], op);
      StepSound(net, w.engines[who], op, w.signed);
      Others(net, w, who, e, SignedBy(who, reply));
      Extend(net, w, w.engines[who := e], SignedBy(who, reply), DecidedBy(who, reply));
    case Restart(who) =>
      Others(net, w, who, NewEngine(who), {});
      Extend(net, w, w.engines[who := NewEngine(who)], {}, {});
      assert w.signed + {} == w.signed && w.decided + {} == w.decided;
    case Elsewhere(who, vote) =>
      forall h | h in w.engines ensures EngineSound(net, w.engines[h], w.signed + {(who, vote)}) {
        SoundStays(net, w.engines[h], w.signed, w.signed + {(who, vote)});
      }
      Extend(net, w, w.engines, {(who, vote)}, {});
      assert w.decided + {} == w.decided;
    case Ask(_, _) =>
  }

  lemma {:induction false} RunSound(net: Committee, w: World, steps: seq<Step>)
    requires WorldSound(net, w) && ValidRun(net, w, steps)
    ensures WorldSound(net, Run(net, w, steps)) && Run(net, w, steps).engines.Keys == w.engines.Keys
    decreases |steps|
  {
    if steps == [] {
    } else {
      NextSound(net, w, steps[0]);
      RunSound(net, Next(net, w, steps[0]), steps[1..]);
    }
  }

  lemma StartSound(net: Committee, honest: set<Hotkey>)
    ensures WorldSound(net, Start(honest)) && Start(honest).engines.Keys == honest
  {
  }

  // ---------------------------------------------------------------- main results

  /**
   * Over every run: each decision is backed by the signatures of a quorum of distinct validators on
   * exactly its view, sequence number and data hash, and each engine's decisions are numbered 1, 2, 3,
   * ... without a gap, up to the one before the next.
   */
  lemma EveryDecisionCertified(net: Committee, honest: set<Hotkey>, steps: seq<Step>)
    requires ValidRun(net, Start(honest), steps)
    ensures var w := Run(net, Start(honest), steps);
            && (forall h, d :: (h, d) in w.decided ==> Certified(net, h, d, w.signed))
            && (forall h :: h in w.engines ==> EngineSound(net, w.engines[h], w.signed))
  {
    StartSound(net, honest);
    RunSound(net, Start(honest), steps);
  }

  /** Once made, an engine's decision stays as it is until the engine restarts. */
  lemma {:induction false} DecisionsArePermanent(net: Committee, w: World, steps: seq<Step>, h: Hotkey, s: nat)
    requires ValidRun(net, w, steps) && Restart(h) !in steps
    requires h in w.engines && w.engines[h].me == h && EngineSound(net, w.engines[h], w.signed)
    requires s in w.engines[h].decisions
    ensures var e := Run(net, w, steps).engines;
            h in e && s in e[h].decisions && e[h].decisions[s] == w.engines[h].decisions[s]
    decreases |steps|
  {
    if steps == [] {
    } else {
      assert steps[0] in steps;
      DecisionKept(net, w, steps[0], h, s);
      DecisionsArePermanent(net, Next(net, w, steps[0]), steps[1..], h, s);
    }
  }

  lemma DecisionKept(net: Committee, w: World, step: Step, h: Hotkey, s: nat)
    requires ValidStep(w, step) && step != Restart(h)
    requires h in w.engines && w.engines[h].me == h && EngineSound(net, w.engines[h], w.signed) && s in w.engines[h].decisions
    ensures var w' := Next(net, w, step);
            && h in w'.engines && w'.engines[h].me == h && EngineSound(net, w'.engines[h], w'.signed)
            && s in w'.engines[h].decisions && w'.engines[h].decisions[s] == w.engines[h].decisions[s]
  {
    if step.At? && step.who == h {
      StepSound(net, w.engines[h], step.op, w.signed);
      NotUnderVote(net, w.engines[h], s, w.signed);
      ExecKeeps(net, w.engines[h], step.op, s);
    } else {
      SoundStays(net, w.engines[h], w.signed, Next(net, w, step).signed);
    }
  }

  lemma NotUnderVote(net: Committee, e: Engine, s: nat, signed: Signatures)
    requires EngineSound(net, e, signed) && s in e.decisions
    ensures e.round.Some? ==> e.round.value.sequence != s
  {
  }

  lemma ExecKeeps(net: Committee, e: Engine, op: Op, s: nat)
    requires s in e.decisions && (e.round.Some? ==> e.round.value.sequence != s)
    ensures var e' := Exec(net, e, op).0; s in e'.decisions && e'.decisions[s] == e.decisions[s]
  {
  }

  /** The signers of a decision, as a set. */
  lemma Signers(net: Committee, w: World, h: Hotkey, d: Decision) returns (q: set<Hotkey>)
    requires WorldSound(net, w) && (h, d) in w.decided
    ensures |q| >= net.Quorum() && q <= net.validators + {h}
    ensures forall x :: x in q ==> (x, d.ToVote()) in w.signed
  {
    q := d.commits.Keys;
    assert Certified(net, h, d, w.signed);
  }

  /** The engine that decides has signed the vote itself, and so has the leader it followed. */
  lemma SoundDecisionFollowsLeader(net: Committee, w: World, h: Hotkey, d: Decision)
    requires WorldSound(net, w) && (h, d) in w.decided
    ensures LeaderSigned(net, d.ToVote(), w.signed)
  {
    assert h in w.engines && Certified(net, h, d, w.signed);
    assert (h, d.ToVote()) in w.signed;
  }

  /** However many validators are faulty, no engine decides what the leader of that view did not sign. */
  lemma DecisionsFollowLeader(net: Committee, honest: set<Hotkey>, steps: seq<Step>, h: Hotkey, d: Decision)
    requires ValidRun(net, Start(honest), steps) && (h, d) in Run(net, Start(honest), steps).decided
    ensures LeaderSigned(net, d.ToVote(), Run(net, Start(honest), steps).signed)
  {
    StartSound(net, honest);
    RunSound(net, Start(honest), steps);
    SoundDecisionFollowsLeader(net, Run(net, Start(honest), steps), h, d);
  }

  ghost predicate SignedTwice(h: Hotkey, signed: Signatures, view: nat, sequence: nat) {
    exists x, y :: x != y && (h, Vote(view, sequence, x)) in signed && (h, Vote(view, sequence, y)) in signed
  }

  ghost function DoubleSigners(net: Committee, signed: Signatures, view: nat, sequence: nat): set<Hotkey> {
    set h | h in net.validators && SignedTwice(h, signed, view, sequence)
  }

  lemma TwoQuorums<T>(v: set<T>, a: set<T>, b: set<T>)
    requires a <= v && b <= v
    ensures |a * b| >= |a| + |b| - |v|
  {
    SubsetSize(a + b, v);
  }

  /**
   * Conflicting decisions of one sequence number in one view, whoever leads and however many
   * validators are faulty, come with at least 2 * quorum - n validators that signed two hashes.
   */
  lemma ConflictNeedsDoubleSigners(net: Committee, honest: set<Hotkey>, steps: seq<Step>,
        h1: Hotkey, d1: Decision, h2: Hotkey, d2: Decision)
    requires ValidRun(net, Start(honest), steps) && honest <= net.validators
    requires var w := Run(net, Start(honest), steps); (h1, d1) in w.decided && (h2, d2) in w.decided
    requires d1.view == d2.view && d1.sequence == d2.sequence && d1.content.dataHash != d2.content.dataHash
    ensures |DoubleSigners(net, Run(net, Start(honest), steps).signed, d1.view, d1.sequence)| >= 2 * net.Quorum() - |net.validators|
  {
    var w := Run(net, Start(honest), steps);
    StartSound(net, honest);
    RunSound(net, Start(honest), steps);
    var a := Signers(net, w, h1, d1);
    var b := Signers(net, w, h2, d2);
    assert h1 in w.engines && h2 in w.engines;
    TwoQuorums(net.validators, a, b);
    forall x | x in a * b ensures x in DoubleSigners(net, w.signed, d1.view, d1.sequence) {
      assert (x, Vote(d1.view, d1.sequence, d1.content.dataHash)) in w.signed;
      assert (x, Vote(d1.view, d1.sequence, d2.content.dataHash)) in w.signed;
    }
    SubsetSize(a * b, DoubleSigners(net, w.signed, d1.view, d1.sequence));
  }

  // ---------------------------------------------------------------- how large a quorum has to be

  ghost predicate QuorumsOverlap(v: set<Hotkey>) {
    forall a, b :: a <= v && b <= v && |a| >= QuorumOf(|v|) && |b| >= QuorumOf(|v|) ==> |a * b| > Tolerated(|v|)
  }

  lemma {:induction false} SubsetOfSize<T>(s: set<T>, k: nat) returns (a: set<T>)
    requires k <= |s|
    ensures a <= s && |a| == k
    decreases |s| - k
  {
    if k == |s| {
      a := s;
    } else {
      var x :| x in s;
      a := SubsetOfSize(s - {x}, k);
    }
  }

  /** Two quorums that share as little as possible. */
  lemma ClosestQuorums(v: set<Hotkey>, q: nat, shared: nat) returns (a: set<Hotkey>, b: set<Hotkey>)
    requires q <= |v| && shared <= q && 2 * q - |v| <= shared
    ensures a <= v && b <= v && |a| == q && |b| == q && |a * b| == shared
  {
    a := SubsetOfSize(v, q);
    assert v == a + (v - a) && a * (v - a) == {};
    var c := SubsetOfSize(a, shared);
    var d := SubsetOfSize(v - a, q - shared);
    b := c + d;
    assert c * d == {} && a * b == c;
  }

  /**
   * Any two quorums of 2f + 1 share more than f validators, f = (n - 1) / 3, if and only if n is of
   * the form 3f + 1 (or there are no validators).
   */
  lemma QuorumsOverlapExactly(v: set<Hotkey>)
    ensures QuorumsOverlap(v) <==> |v| == 0 || |v| % 3 == 1
  {
    var n, q := |v|, QuorumOf(|v|);
    if n == 0 || n % 3 == 1 {
      forall a, b | a <= v && b <= v && |a| >= q && |b| >= q ensures |a * b| > Tolerated(n) {
        TwoQuorums(v, a, b);
      }
    } else {
      var a, b := ClosestQuorums(v, q, if 2 * q > n then 2 * q - n else 0);
      assert |a * b| <= Tolerated(n);
    }
  }

  /**
   * With n = 3f + 1 active validators and at most f of them faulty, conflicting decisions in one view always
   * come with an honest validator that signed both hashes, and with a leader that did.
   */
  lemma ConflictInvolvesHonest(net: Committee, honest: set<Hotkey>, steps: seq<Step>,
        h1: Hotkey, d1: Decision, h2: Hotkey, d2: Decision) returns (h: Hotkey)
    requires ValidRun(net, Start(honest), steps) && honest <= net.validators
    requires |net.validators| == |net.byStake| && |net.validators| % 3 == 1 && |net.validators - honest| <= net.FaultTolerance()
    requires var w := Run(net, Start(honest), steps); (h1, d1) in w.decided && (h2, d2) in w.decided
    requires d1.view == d2.view && d1.sequence == d2.sequence && d1.content.dataHash != d2.content.dataHash
    ensures h in honest && SignedTwice(h, Run(net, Start(honest), steps).signed, d1.view, d1.sequence)
    ensures var signed := Run(net, Start(honest), steps).signed;
            LeaderSigned(net, d1.ToVote(), signed) && LeaderSigned(net, d2.ToVote(), signed)
  {
    var signed := Run(net, Start(honest), steps).signed;
    ConflictNeedsDoubleSigners(net, honest, steps, h1, d1, h2, d2);
    DecisionsFollowLeader(net, honest, steps, h1, d1);
    DecisionsFollowLeader(net, honest, steps, h2, d2);
    h := Outside(net.validators - honest, DoubleSigners(net, signed, d1.view, d1.sequence));
  }
}
