/**
 * The PBFT consensus engine of one validator: proposals, prepare and commit votes, decisions.
 *
 * A signature is represented by whether it verifies; prepare, commit and proposal signatures all
 * cover the same three values, a `Vote`. The validator set is fixed; SHA-256 is the function `digest`.
 */
module Consensus {
  import opened Base
  import Chain
  import Commitment

  type Hotkey = Chain.Hotkey
  type Hash = seq<u8>

  /** `byStake` lists the active validators in leader order; `validators` are the registered ones. */
  datatype Committee = Committee(validators: set<Hotkey>, byStake: seq<Hotkey>, sudoKey: Hotkey, digest: seq<u8> -> Hash)
  {
    function FaultTolerance(): nat {
      Tolerated(|byStake|)
    }
    function Quorum(): nat {
      QuorumOf(|byStake|)
    }
    function Leader(view: nat): Option<Hotkey> {
      if byStake == [] then None else Some(byStake[view % |byStake|])
    }
  }

  function Tolerated(n: nat): nat {
    if n == 0 then 0 else (n - 1) / 3
  }

  function QuorumOf(n: nat): nat {
    2 * Tolerated(n) + 1
  }

  datatype Vote = Vote(view: nat, sequence: nat, hash: Hash)

  datatype Message = Message(validator: Hotkey, vote: Vote, valid: bool)

  datatype Content = Content(isConfigUpdate: bool, data: seq<u8>, dataHash: Hash)

  datatype Proposal = Proposal(view: nat, sequence: nat, content: Content, proposer: Hotkey, valid: bool)

  datatype Phase = PrePrepared | Prepared

  /** A round is only ever stored together with its proposal. */
  datatype Round = Round(view: nat, sequence: nat, phase: Phase, content: Content, prePrepare: Option<Vote>,
                         prepares: map<Hotkey, Message>, commits: map<Hotkey, Message>, hash: Hash)
  {
    function ToVote(): Vote {
      Vote(view, sequence, hash)
    }
  }

  datatype Decision = Decision(view: nat, sequence: nat, content: Content, commits: map<Hotkey, Message>)
  {
    function ToVote(): Vote {
      Vote(view, sequence, content.dataHash)
    }
  }

  datatype Engine = Engine(me: Hotkey, view: nat, next: nat, round: Option<Round>, decisions: map<nat, Decision>)

  function NewEngine(me: Hotkey): Engine {
    Engine(me, 0, 1, None, map[])
  }

  datatype ConsensusError =
    NotLeader | InvalidProposal | InvalidSignature | SequenceMismatch | ViewMismatch | AlreadyVoted

  /** `Voted` when the call signs a vote, as a proposer or as a voter. */
  datatype Reply = Nothing | Voted(vote: Vote) | Decided(decision: Decision) | Failed(error: ConsensusError)

  // ---------------------------------------------------------------- what each operation does

  function NewRound(view: nat, sequence: nat, content: Content, hash: Hash): Round {
    Round(view, sequence, PrePrepared, content, None, map[], map[], hash)
  }

  function Proposing(net: Committee, e: Engine, isConfigUpdate: bool, data: seq<u8>): (Engine, Reply) {
    if net.Leader(e.view) != Some(e.me) then (e, Failed(NotLeader))
    else if isConfigUpdate && e.me != net.sudoKey then (e, Failed(InvalidProposal))
    else
      var h := net.digest(data);
      var round := NewRound(e.view, e.next, Content(isConfigUpdate, data, h), h);
      (e.(round := Some(round)), Voted(round.ToVote()))
  }

  /** Replaces the current round, whatever it was, and votes to prepare. */
  function OnProposal(net: Committee, e: Engine, p: Proposal): (Engine, Reply) {
    if p.view != e.view then (e, Failed(ViewMismatch))
    else if p.sequence != e.next then (e, Failed(SequenceMismatch))
    else if net.Leader(e.view) != Some(p.proposer) then (e, Failed(InvalidProposal))
    else if net.digest(p.content.data) != p.content.dataHash then (e, Failed(InvalidProposal))
    else if !p.valid then (e, Failed(InvalidSignature))
    else if p.content.isConfigUpdate && p.proposer != net.sudoKey then (e, Failed(InvalidProposal))
    else
      var round := NewRound(e.view, e.next, p.content, p.content.dataHash);
      (e.(round := Some(round.(prepares := map[e.me := Message(e.me, round.ToVote(), true)]))), Voted(round.ToVote()))
  }

  function PrePreparing(net: Committee, e: Engine, vote: Vote): (Engine, Reply) {
    if net.Leader(vote.view) != Some(e.me) then (e, Failed(NotLeader))
    else (if e.round.Some? then e.(round := Some(e.round.value.(prePrepare := Some(vote)))) else e, Voted(vote))
  }

  /** Why a vote is refused before it is looked up among those already received. */
  function Refusal(net: Committee, round: Option<Round>, m: Message): Option<ConsensusError> {
    if round.None? then Some(InvalidProposal)
    else if m.vote.view != round.value.view then Some(ViewMismatch)
    else if m.vote.sequence != round.value.sequence then Some(SequenceMismatch)
    else if m.vote.hash != round.value.hash then Some(InvalidProposal)
    else if m.validator !in net.validators || !m.valid then Some(InvalidSignature)
    else None
  }

  function OnPrepare(net: Committee, e: Engine, m: Message): (Engine, Reply) {
    var refusal := Refusal(net, e.round, m);
    if refusal.Some? then (e, Failed(refusal.value))
    else
      var round := e.round.value;
      if m.validator in round.prepares then (e, Failed(AlreadyVoted))
      else
        var more := round.(prepares := round.prepares[m.validator := m]);
        if |more.prepares| >= net.Quorum() && round.phase == PrePrepared then
          var mine := Message(e.me, round.ToVote(), true);
          (e.(round := Some(more.(phase := Prepared, commits := round.commits[e.me := mine]))), Voted(round.ToVote()))
        else (e.(round := Some(more)), Nothing)
  }

  function OnCommit(net: Committee, e: Engine, m: Message): (Engine, Reply) {
    var refusal := Refusal(net, e.round, m);
    if refusal.Some? then (e, Failed(refusal.value))
    else
      var round := e.round.value;
      if m.validator in round.commits then (e, Failed(AlreadyVoted))
      else
        var more := round.(commits := round.commits[m.validator := m]);
        if |more.commits| >= net.Quorum() && round.phase == Prepared then
          var decision := Decision(round.view, round.sequence, round.content, more.commits);
          (e.(round := None, next := e.next + 1, decisions := e.decisions[round.sequence := decision]), Decided(decision))
        else (e.(round := Some(more)), Nothing)
  }

  /** What every way of changing the view does to the state voted on. */
  function EnteringView(e: Engine, view: nat): Engine {
    e.(view := view, round := None)
  }

  datatype Op =
    | CreateProposal(isConfigUpdate: bool, data: seq<u8>)
    | HandleProposal(proposal: Proposal)
    | CreatePrePrepare(vote: Vote)
    | HandlePrepare(prepare: Message)
    | HandleCommit(commit: Message)
    | EnterView(view: nat)

  function Exec(net: Committee, e: Engine, op: Op): (Engine, Reply) {
    match op
    case CreateProposal(isConfigUpdate, data) => Proposing(net, e, isConfigUpdate, data)
    case HandleProposal(proposal) => OnProposal(net, e, proposal)
    case CreatePrePrepare(vote) => PrePreparing(net, e, vote)
    case HandlePrepare(prepare) => OnPrepare(net, e, prepare)
    case HandleCommit(commit) => OnCommit(net, e, commit)
    case EnterView(view) => (EnteringView(e, view), Nothing)
  }

  // ---------------------------------------------------------------- the implementation

  class ConsensusEngine {
    const net: Committee
    const me: Hotkey
    var currentView: nat
    var nextSequence: nat
    var currentRound: Option<Round>
    var decisions: map<nat, Decision>

    ghost function Value(): Engine
      reads this
    {
      Engine(me, currentView, nextSequence, currentRound, decisions)
    }

    constructor (net: Committee, me: Hotkey)
      ensures Value() == NewEngine(me) && this.net == net
    {
      this.net, this.me := net, me;
      currentView, nextSequence := 0, 1;
      currentRound, decisions := None, map[];
    }

    method CreateProposal(isConfigUpdate: bool, data: seq<u8>) returns (reply: Reply)
      modifies this
      ensures (Value(), reply) == Proposing(net, old(Value()), isConfigUpdate, data)
    {
      if net.Leader(currentView) != Some(me) {
        return Failed(NotLeader);
      }
      if isConfigUpdate && me != net.sudoKey {
        return Failed(InvalidProposal);
      }
      var dataHash := net.digest(data);
      currentRound := Some(NewRound(currentView, nextSequence, Content(isConfigUpdate, data, dataHash), dataHash));
      reply := Voted(Vote(currentView, nextSequence, dataHash));
    }

    method HandleProposal(p: Proposal) returns (reply: Reply)
      modifies this
      ensures (Value(), reply) == OnProposal(net, old(Value()), p)
    {
      if p.view != currentView {
        return Failed(ViewMismatch);
      }
      if p.sequence != nextSequence {
        return Failed(SequenceMismatch);
      }
      if net.Leader(currentView) != Some(p.proposer) {
        return Failed(InvalidProposal);
      }
      var computed := net.digest(p.content.data);
      if computed != p.content.dataHash {
        return Failed(InvalidProposal);
      }
      if !p.valid {
        return Failed(InvalidSignature);
      }
      if p.content.isConfigUpdate && p.proposer != net.sudoKey {
        return Failed(InvalidProposal);
      }
      currentRound := Some(NewRound(currentView, nextSequence, p.content, computed));
      reply := CreatePrepare(Vote(currentView, nextSequence, computed));
    }

    method CreatePrepare(vote: Vote) returns (reply: Reply)
      modifies this`currentRound
      ensures reply == Voted(vote)
      ensures currentRound == if old(currentRound).None? then None
                              else var r := old(currentRound).value; Some(r.(prepares := r.prepares[me := Message(me, vote, true)]))
    {
      if currentRound.Some? {
        var round := currentRound.value;
        currentRound := Some(round.(prepares := round.prepares[me := Message(me, vote, true)]));
      }
      reply := Voted(vote);
    }

    method CreatePrePrepare(vote: Vote) returns (reply: Reply)
      modifies this
      ensures (Value(), reply) == PrePreparing(net, old(Value()), vote)
    {
      if net.Leader(vote.view) != Some(me) {
        return Failed(NotLeader);
      }
      if currentRound.Some? {
        currentRound := Some(currentRound.value.(prePrepare := Some(vote)));
      }
      reply := Voted(vote);
    }

    method HandlePrepare(m: Message) returns (reply: Reply)
      modifies this
      ensures (Value(), reply) == OnPrepare(net, old(Value()), m)
    {
      var refusal := Refusal(net, currentRound, m);
      if refusal.Some? {
        return Failed(refusal.value);
      }
      var round := currentRound.value;
      if m.validator in round.prepares {
        return Failed(AlreadyVoted);
      }
      round := round.(prepares := round.prepares[m.validator := m]);
      reply := Nothing;
      if |round.prepares| >= net.Quorum() && round.phase == PrePrepared {
        round := round.(phase := Prepared, commits := round.commits[me := Message(me, round.ToVote(), true)]);
        reply := Voted(round.ToVote());
      }
      currentRound := Some(round);
    }

    method HandleCommit(m: Message) returns (reply: Reply)
      modifies this
      ensures (Value(), reply) == OnCommit(net, old(Value()), m)
    {
      var refusal := Refusal(net, currentRound, m);
      if refusal.Some? {
        return Failed(refusal.value);
      }
      var round := currentRound.value;
      if m.validator in round.commits {
        return Failed(AlreadyVoted);
      }
      round := round.(commits := round.commits[m.validator := m]);
      currentRound := Some(round);
      reply := Nothing;
      if |round.commits| >= net.Quorum() && round.phase == Prepared {
        var decision := Decision(round.view, round.sequence, round.content, round.commits);
        decisions := decisions[round.sequence := decision];
        nextSequence := nextSequence + 1;
        currentRound := None;
        reply := Decided(decision);
      }
    }

    method EnterView(view: nat)
      modifies this
      ensures Value() == EnteringView(old(Value()), view)
    {
      currentView := view;
      currentRound := None;
    }
  }

  // ---------------------------------------------------------------- who leads

  function Position(order: seq<Hotkey>, h: Hotkey): (p: nat)
    ensures p <= |order|
    ensures p < |order| ==> order[p] == h
    ensures p == |order| ==> h !in order
  {
    if order == [] then 0 else if order[0] == h then 0 else 1 + Position(order[1..], h)
  }

  /** The next view, the current one included, that `h` leads. */
  function NextLeaderView(net: Committee, h: Hotkey, current: nat): Option<nat> {
    var p, n := Position(net.byStake, h), |net.byStake|;
    if p == n then None
    else if p >= current % n then Some(current + (p - current % n))
    else Some(current + (n - current % n + p))
  }

  /** The leaders follow the list from view 0 on, again and again. */
  lemma LeadersRotate(net: Committee, view: nat)
    requires net.byStake != []
    ensures view < |net.byStake| ==> net.Leader(view) == Some(net.byStake[view])
    ensures net.Leader(view + |net.byStake|) == net.Leader(view)
  {
    OneRoundLater(view, |net.byStake|);
  }

  lemma OneRoundLater(view: nat, n: nat)
    requires 0 < n
    ensures (view + n) % n == view % n
  {
    var q, r := view / n, view % n;
    Scale(n, q + 1, q + 1);
    Residue(view + n, r, q + 1, n);
  }

  /** The computed view is led by `h`, and it is the only one among the next n. */
  lemma NextViewIsLed(net: Committee, h: Hotkey, current: nat)
    requires Distinct(net.byStake)
    ensures NextLeaderView(net, h, current).None? <==> h !in net.byStake
    ensures h in net.byStake ==>
              && current <= NextLeaderView(net, h, current).value < current + |net.byStake|
              && net.Leader(NextLeaderView(net, h, current).value) == Some(h)
              && forall u :: current <= u < current + |net.byStake| && net.Leader(u) == Some(h) ==>
                               u == NextLeaderView(net, h, current).value
  {
    var p, n := Position(net.byStake, h), |net.byStake|;
    if p < n {
      var v, q := NextLeaderView(net, h, current).value, current / n;
      var t := if p >= current % n then q else q + 1;
      Residue(v, p, t, n);
      forall u | current <= u < current + n && net.Leader(u) == Some(h) ensures u == v {
        assert u % n == p;
        SameResidue(u, v, n);
      }
    }
  }

  lemma SameResidue(u: nat, v: nat, n: nat)
    requires 0 < n && u % n == v % n && u < v + n && v < u + n
    ensures u == v
  {
    if u / n < v / n {
      Scale(n, u / n + 1, v / n);
    } else if v / n < u / n {
      Scale(n, v / n + 1, u / n);
    }
  }

  /** In any n consecutive views every active validator leads exactly one. */
  lemma EachLeadsOnce(net: Committee, start: nat, h: Hotkey) returns (v: nat)
    requires Distinct(net.byStake) && h in net.byStake
    ensures forall u :: start <= u < start + |net.byStake| ==> (net.Leader(u) == Some(h) <==> u == v)
    ensures start <= v < start + |net.byStake|
  {
    NextViewIsLed(net, h, start);
    v := NextLeaderView(net, h, start).value;
  }

  /** More stake, or as much and a smaller hotkey. */
  predicate Outranks(stakes: map<Hotkey, nat>, a: Hotkey, b: Hotkey)
    requires a in stakes && b in stakes
  {
    stakes[a] > stakes[b] || (stakes[a] == stakes[b] && Commitment.Le(a.bytes, b.bytes))
  }

  /** `order` lists the active validators, whose stakes are given, the highest ranked first. */
  ghost predicate InLeaderOrder(stakes: map<Hotkey, nat>, order: seq<Hotkey>) {
    && Enumerates(order, stakes.Keys)
    && forall i, j :: 0 <= i < j < |order| ==> Outranks(stakes, order[i], order[j])
  }

  lemma LastIsLowest(stakes: map<Hotkey, nat>, a: seq<Hotkey>, b: seq<Hotkey>)
    requires InLeaderOrder(stakes, a) && InLeaderOrder(stakes, b) && |a| == |b| > 0
    ensures a[|a| - 1] == b[|b| - 1]
  {
    var n := |a| - 1;
    var x, y := a[n], b[n];
    assert x in a && y in b && x in stakes.Keys && y in stakes.Keys;
    assert x in b && y in a;
    var i :| 0 <= i <= n && a[i] == y;
    var j :| 0 <= j <= n && b[j] == x;
    if x != y {
      assert Outranks(stakes, a[i], a[n]) && Outranks(stakes, b[j], b[n]);
      Commitment.LeAntisymmetric(x.bytes, y.bytes);
    }
  }

  lemma ShorterOrder(stakes: map<Hotkey, nat>, order: seq<Hotkey>)
    requires InLeaderOrder(stakes, order) && order != []
    ensures InLeaderOrder(stakes - {order[|order| - 1]}, order[..|order| - 1])
  {
    var init, last := order[..|order| - 1], order[|order| - 1];
    forall x ensures x in init <==> x in stakes.Keys - {last} {
      if x in stakes.Keys - {last} {
        assert x in order;
        var i :| 0 <= i < |order| && order[i] == x;
        assert init[i] == x;
      }
      if x in init {
        assert x in order;
      }
    }
    forall i, j | 0 <= i < j < |init| ensures Outranks(stakes - {last}, init[i], init[j]) {
      assert init[i] in init && init[j] in init;
      assert Outranks(stakes, order[i], order[j]);
    }
  }

  /**
   * The stakes of the active validators determine the order, whatever order a hash map gives them in: nodes
   * that know the same stakes have the same leader in every view.
   */
  lemma {:induction false} StakesDetermineLeaders(stakes: map<Hotkey, nat>, a: seq<Hotkey>, b: seq<Hotkey>)
    requires InLeaderOrder(stakes, a) && InLeaderOrder(stakes, b)
    ensures a == b
    decreases |a|
  {
    SameLength(stakes, a, b);
    if a == [] {
    } else {
      LastIsLowest(stakes, a, b);
      ShorterOrder(stakes, a);
      ShorterOrder(stakes, b);
      StakesDetermineLeaders(stakes - {a[|a| - 1]}, a[..|a| - 1], b[..|b| - 1]);
      LastPutBack(a, b);
    }
  }

  lemma SameLength(stakes: map<Hotkey, nat>, a: seq<Hotkey>, b: seq<Hotkey>)
    requires Enumerates(a, stakes.Keys) && Enumerates(b, stakes.Keys)
    ensures |a| == |b|
  {
    EnumerationSize(a, stakes.Keys);
    EnumerationSize(b, stakes.Keys);
  }

  lemma LastPutBack(a: seq<Hotkey>, b: seq<Hotkey>)
    requires |a| == |b| > 0 && a[..|a| - 1] == b[..|b| - 1] && a[|a| - 1] == b[|b| - 1]
    ensures a == b
  {
    SplitLast(a, |a| - 1);
    SplitLast(b, |b| - 1);
  }

  /**
   * What a leader proposes, every engine at the same view and sequence number accepts, and votes for the same
   * with the same content; both then hold a round without any vote but the own.
   */
  lemma ProposalIsTaken(net: Committee, e: Engine, e': Engine, isConfigUpdate: bool, data: seq<u8>)
    requires Proposing(net, e, isConfigUpdate, data).1.Voted? && (e'.view, e'.next) == (e.view, e.next)
    ensures var (after, reply) := Proposing(net, e, isConfigUpdate, data);
            && after.round.Some? && reply.vote == Vote(e.view, e.next, net.digest(data))
            && var p := Proposal(e.view, e.next, after.round.value.content, e.me, true);
               var (after', reply') := OnProposal(net, e', p);
               && reply' == reply && after'.round.Some?
               && after'.round.value == after.round.value.(prepares := after'.round.value.prepares)
               && p.content.data == data && p.content.isConfigUpdate == isConfigUpdate
               && after.round.value.prepares.Keys == {} && after'.round.value.prepares.Keys == {e'.me}
               && after == e.(round := after.round) && after' == e'.(round := after'.round)
  {
  }

  /** A proposal is taken if and only if it passes every check; otherwise nothing changes. */
  lemma ProposalTakenExactly(net: Committee, e: Engine, p: Proposal)
    ensures var (after, reply) := OnProposal(net, e, p);
            && (reply.Voted? <==>
                  && (p.view, p.sequence) == (e.view, e.next) && net.Leader(p.view) == Some(p.proposer)
                  && net.digest(p.content.data) == p.content.dataHash && p.valid
                  && (p.content.isConfigUpdate ==> p.proposer == net.sudoKey))
            && (!reply.Voted? ==> reply.Failed? && after == e)
  {
  }

  /** Only the leader of the named view signs a pre-prepare; it is noted in the round, and changes nothing else. */
  lemma PrePrepareOutcome(net: Committee, e: Engine, vote: Vote)
    ensures var (after, reply) := PrePreparing(net, e, vote);
            && (reply == Voted(vote) <==> net.Leader(vote.view) == Some(e.me))
            && (reply != Voted(vote) ==> reply == Failed(NotLeader) && after == e)
            && after == e.(round := after.round) && (after.round.Some? <==> e.round.Some?)
            && (e.round.Some? && reply.Voted? ==>
                  && after.round.value.prePrepare == Some(vote)
                  && after.round.value == e.round.value.(prePrepare := Some(vote)))
  {
  }

  /** There is a round, and the message is a registered validator's valid vote for exactly that round. */
  predicate VotesFor(net: Committee, round: Option<Round>, m: Message) {
    round.Some? && m.vote == round.value.ToVote() && m.validator in net.validators && m.valid
  }

  /**
   * A prepare vote counts if and only if it is for the round and its validator has none in yet. Then it is
   * added and the others stay; otherwise nothing changes, and a second vote is reported as such.
   */
  lemma PrepareCountsOnce(net: Committee, e: Engine, m: Message)
    ensures var (after, reply) := OnPrepare(net, e, m);
            && (!reply.Failed? <==> VotesFor(net, e.round, m) && m.validator !in e.round.value.prepares)
            && (reply == Failed(AlreadyVoted) <==> VotesFor(net, e.round, m) && m.validator in e.round.value.prepares)
            && (reply.Failed? ==> after == e)
            && (!reply.Failed? ==>
                  && after == e.(round := after.round) && after.round.Some?
                  && after.round.value.prepares == e.round.value.prepares[m.validator := m])
  {
  }

  /** Likewise for a commit vote, which may decide the round. */
  lemma CommitCountsOnce(net: Committee, e: Engine, m: Message)
    ensures var (after, reply) := OnCommit(net, e, m);
            && (!reply.Failed? <==> VotesFor(net, e.round, m) && m.validator !in e.round.value.commits)
            && (reply == Failed(AlreadyVoted) <==> VotesFor(net, e.round, m) && m.validator in e.round.value.commits)
            && (reply.Failed? ==> after == e)
            && (!reply.Failed? ==>
                  var commits := e.round.value.commits[m.validator := m];
                  if reply.Decided? then
                    && reply.decision.commits == commits && after.round.None? && after.next == e.next + 1
                    && reply.decision.ToVote() == Vote(m.vote.view, m.vote.sequence, e.round.value.content.dataHash)
                  else after == e.(round := Some(e.round.value.(commits := commits))))
  {
  }
}
