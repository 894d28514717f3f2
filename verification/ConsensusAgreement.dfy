/**
 * When the engines of a network agree. Decisions of one sequence number, in one view or in two, agree in
 * every run exactly if the leaders of those views are bound to one hash for it: otherwise the runs below,
 * without a restart and with as few faulty validators as one likes, decide two hashes.
 */
module ConsensusAgreement {
  import opened Base
  import Chain
  import opened Consensus
  import opened ConsensusSafety

  // ---------------------------------------------------------------- what leaders may sign

  /** Leaders keep to `may`: the hashes they may sign for sequence number `s`, by view. */
  ghost predicate KeepsTo(net: Committee, signed: Signatures, s: nat, may: (nat, Hash) -> bool) {
    forall h, v :: (h, v) in signed && v.sequence == s && net.Leader(v.view) == Some(h) ==> may(v.view, v.hash)
  }

  ghost predicate OneHash(net: Committee, v1: nat, v2: nat, may: (nat, Hash) -> bool) {
    forall x, y :: may(v1, net.digest(x)) && may(v2, net.digest(y)) ==> net.digest(x) == net.digest(y)
  }

  ghost predicate Agree(w: World, s: nat, v1: nat, v2: nat) {
    forall h1, d1, h2, d2 :: (h1, d1) in w.decided && (h2, d2) in w.decided && InView(d1, s, v1) && InView(d2, s, v2)
                             ==> d1.content.dataHash == d2.content.dataHash
  }

  predicate InView(d: Decision, s: nat, view: nat) {
    d.sequence == s && d.view == view
  }

  /** In every run in which the leaders keep to `may`. */
  ghost predicate AlwaysAgree(net: Committee, w: World, s: nat, v1: nat, v2: nat, may: (nat, Hash) -> bool) {
    forall steps :: ValidRun(net, w, steps) && KeepsTo(net, Run(net, w, steps).signed, s, may) ==>
                      Agree(Run(net, w, steps), s, v1, v2)
  }

  /**
   * The same for the runs a network without restarts can have: only `faulty` validators act outside an
   * engine, and an engine enters a view only if it is a higher one that a quorum of validators asked for.
   */
  ghost predicate OrderlyAgree(net: Committee, w: World, s: nat, v1: nat, v2: nat, may: (nat, Hash) -> bool) {
    forall steps ::
      (ValidRun(net, w, steps) && Orderly(net, w, steps, net.validators - w.engines.Keys) &&
       KeepsTo(net, Run(net, w, steps).signed, s, may)) ==> Agree(Run(net, w, steps), s, v1, v2)
  }

  /** The engines all stand at sequence number `s` in view `v0`. */
  ghost predicate Level(net: Committee, w: World, s: nat, v0: nat) {
    WorldSound(net, w) && forall h :: h in w.engines ==> w.engines[h].next == s && w.engines[h].view == v0
  }

  /** Whatever the number of validators, and of faulty ones among them. */
  lemma BoundLeadersAgree(net: Committee, w: World, s: nat, v1: nat, v2: nat, may: (nat, Hash) -> bool)
    requires WorldSound(net, w)
    requires KeepsTo(net, w.signed, s, may) && OneHash(net, v1, v2, may)
    ensures Agree(w, s, v1, v2)
  {
    forall h1, d1, h2, d2 | (h1, d1) in w.decided && (h2, d2) in w.decided && InView(d1, s, v1) && InView(d2, s, v2)
      ensures d1.content.dataHash == d2.content.dataHash
    {
      SignedByLeader(net, w, s, may, h1, d1);
      SignedByLeader(net, w, s, may, h2, d2);
    }
  }

  lemma SignedByLeader(net: Committee, w: World, s: nat, may: (nat, Hash) -> bool, h: Hotkey, d: Decision)
    requires WorldSound(net, w)
    requires KeepsTo(net, w.signed, s, may) && (h, d) in w.decided && d.sequence == s
    ensures d.content.dataHash == net.digest(d.content.data) && may(d.view, d.content.dataHash)
  {
    SoundDecisionFollowsLeader(net, w, h, d);
    assert Certified(net, h, d, w.signed);
    assert (net.Leader(d.view).value, d.ToVote()) in w.signed;
  }

  // ---------------------------------------------------------------- composing runs

  /** A quorum of distinct validators asked for the view. */
  ghost predicate Backed(net: Committee, w: World, view: nat) {
    |set h | h in net.validators && (h, view) in w.asked| >= net.Quorum()
  }

  ghost predicate OrderlyStep(net: Committee, w: World, step: Step, faulty: set<Hotkey>)
    requires ValidStep(w, step)
  {
    match step
    case At(who, op) => op.EnterView? ==> op.view > w.engines[who].view && Backed(net, w, op.view)
    case Restart(_) => false
    case Elsewhere(who, _) => who in faulty
    case Ask(who, _) => who in w.engines || who in faulty
  }

  ghost predicate Orderly(net: Committee, w: World, steps: seq<Step>, faulty: set<Hotkey>)
    requires ValidRun(net, w, steps)
    decreases |steps|
  {
    steps == [] || (OrderlyStep(net, w, steps[0], faulty) && Orderly(net, Next(net, w, steps[0]), steps[1..], faulty))
  }

  ghost predicate Reaches(net: Committee, faulty: set<Hotkey>, w: World, w': World) {
    exists steps :: ValidRun(net, w, steps) && Orderly(net, w, steps, faulty) && Run(net, w, steps) == w'
  }

  lemma ReachesSelf(net: Committee, faulty: set<Hotkey>, w: World)
    ensures Reaches(net, faulty, w, w)
  {
    assert ValidRun(net, w, []) && Orderly(net, w, [], faulty) && Run(net, w, []) == w;
  }

  lemma ReachesNext(net: Committee, faulty: set<Hotkey>, w: World, step: Step)
    requires ValidStep(w, step) && OrderlyStep(net, w, step, faulty)
    ensures Reaches(net, faulty, w, Next(net, w, step))
  {
    var w' := Next(net, w, step);
    assert ValidRun(net, w', []) && Orderly(net, w', [], faulty) && Run(net, w', []) == w';
    RunCons(net, faulty, w, step, [], w');
    assert [step] + [] == [step];
  }

  lemma RunCons(net: Committee, faulty: set<Hotkey>, w: World, step: Step, rest: seq<Step>, w1: World)
    requires ValidStep(w, step) && OrderlyStep(net, w, step, faulty) && w1 == Next(net, w, step)
    requires ValidRun(net, w1, rest) && Orderly(net, w1, rest, faulty)
    ensures ValidRun(net, w, [step] + rest) && Orderly(net, w, [step] + rest, faulty)
    ensures Run(net, w, [step] + rest) == Run(net, w1, rest)
  {
    assert ([step] + rest)[1..] == rest;
  }

  lemma RunUncons(net: Committee, faulty: set<Hotkey>, w: World, steps: seq<Step>) returns (w1: World)
    requires steps != [] && ValidRun(net, w, steps) && Orderly(net, w, steps, faulty)
    ensures ValidStep(w, steps[0]) && OrderlyStep(net, w, steps[0], faulty) && w1 == Next(net, w, steps[0])
    ensures ValidRun(net, w1, steps[1..]) && Orderly(net, w1, steps[1..], faulty)
    ensures Run(net, w, steps) == Run(net, w1, steps[1..])
  {
    w1 := Next(net, w, steps[0]);
  }

  lemma HeadFirst<T>(a: seq<T>, b: seq<T>)
    requires a != []
    ensures [a[0]] + (a[1..] + b) == a + b
  {
  }

  lemma {:induction false} RunConcat(net: Committee, faulty: set<Hotkey>, w: World, a: seq<Step>, b: seq<Step>,
        w': World)
    requires ValidRun(net, w, a) && Orderly(net, w, a, faulty) && w' == Run(net, w, a)
    requires ValidRun(net, w', b) && Orderly(net, w', b, faulty)
    ensures ValidRun(net, w, a + b) && Orderly(net, w, a + b, faulty) && Run(net, w, a + b) == Run(net, w', b)
    decreases |a|
  {
    if a == [] {
      assert a + b == b;
    } else {
      var w1 := RunUncons(net, faulty, w, a);
      RunConcat(net, faulty, w1, a[1..], b, w');
      RunCons(net, faulty, w, a[0], a[1..] + b, w1);
      HeadFirst(a, b);
    }
  }

  lemma ReachesThen(net: Committee, faulty: set<Hotkey>, w: World, w1: World, w2: World)
    requires Reaches(net, faulty, w, w1) && Reaches(net, faulty, w1, w2)
    ensures Reaches(net, faulty, w, w2)
  {
    var a := SomeRun(net, faulty, w, w1);
    var b := SomeRun(net, faulty, w1, w2);
    RunConcat(net, faulty, w, a, b, w1);
  }

  lemma SomeRun(net: Committee, faulty: set<Hotkey>, w: World, w': World) returns (steps: seq<Step>)
    requires Reaches(net, faulty, w, w')
    ensures ValidRun(net, w, steps) && Orderly(net, w, steps, faulty) && Run(net, w, steps) == w'
  {
    steps :| ValidRun(net, w, steps) && Orderly(net, w, steps, faulty) && Run(net, w, steps) == w';
  }

  // ---------------------------------------------------------------- everyone asks for a view

  function AskAll(w: World, members: seq<Hotkey>, view: nat): World {
    if members == [] then w
    else
      var w1 := AskAll(w, members[..|members| - 1], view);
      w1.(asked := w1.asked + {(members[|members| - 1], view)})
  }

  lemma {:induction false} ReachesAskAll(net: Committee, faulty: set<Hotkey>, w: World, members: seq<Hotkey>, view: nat)
    requires forall h :: h in members ==> if h in w.engines then w.engines[h].view < view else h in faulty
    ensures var w' := AskAll(w, members, view);
            && Reaches(net, faulty, w, w') && w' == w.(asked := w'.asked)
            && forall h :: h in members ==> (h, view) in w'.asked
  {
    if members == [] {
      ReachesSelf(net, faulty, w);
    } else {
      var init, last := members[..|members| - 1], members[|members| - 1];
      var w1 := AskAll(w, init, view);
      assert last in members && forall h :: h in init ==> h in members;
      ReachesAskAll(net, faulty, w, init, view);
      ReachesNext(net, faulty, w1, Ask(last, view));
      ReachesThen(net, faulty, w, w1, AskAll(w, members, view));
    }
  }

  lemma AskersBack(net: Committee, w: World, members: seq<Hotkey>, s: set<Hotkey>, view: nat)
    requires Enumerates(members, s) && s <= net.validators && |s| >= net.Quorum()
    requires forall h :: h in members ==> (h, view) in w.asked
    ensures Backed(net, w, view)
  {
    SubsetSize(s, set h | h in net.validators && (h, view) in w.asked);
  }

  // ---------------------------------------------------------------- everyone votes

  function ProposalOf(leader: Hotkey, view: nat, s: nat, data: seq<u8>, hash: Hash): Proposal {
    Proposal(view, s, Content(false, data, hash), leader, true)
  }

  function VoteFor(p: Proposal): Vote {
    Vote(p.view, p.sequence, p.content.dataHash)
  }

  predicate Proper(net: Committee, p: Proposal) {
    && net.Leader(p.view) == Some(p.proposer) && p.valid && !p.content.isConfigUpdate
    && p.content.dataHash == net.digest(p.content.data)
  }

  /** An engine that has just handled the proposal. */
  function Joined(e: Engine, p: Proposal): Engine {
    var round := NewRound(p.view, e.next, p.content, p.content.dataHash);
    e.(view := p.view, round := Some(round.(prepares := map[e.me := Message(e.me, round.ToVote(), true)])))
  }

  function Joins(w: World, h: Hotkey, p: Proposal): World {
    w.(engines := if h in w.engines then w.engines[h := Joined(w.engines[h], p)] else w.engines,
       signed := w.signed + {(h, VoteFor(p))})
  }

  /** `h` can vote on the proposal: its engine is in the view or may enter it, or it is faulty. */
  ghost predicate Ready(net: Committee, w: World, h: Hotkey, p: Proposal, faulty: set<Hotkey>) {
    if h in w.engines then
      && w.engines[h].me == h && w.engines[h].next == p.sequence
      && (w.engines[h].view == p.view || (w.engines[h].view < p.view && Backed(net, w, p.view)))
    else h in faulty
  }

  lemma ReachesJoins(net: Committee, faulty: set<Hotkey>, w: World, h: Hotkey, p: Proposal)
    requires Proper(net, p) && (p.proposer, VoteFor(p)) in w.signed && Ready(net, w, h, p, faulty)
    ensures Reaches(net, faulty, w, Joins(w, h, p))
  {
    if h !in w.engines {
      ReachesNext(net, faulty, w, Elsewhere(h, VoteFor(p)));
    } else if w.engines[h].view == p.view {
      Handles(net, w, h, p);
      ReachesNext(net, faulty, w, At(h, HandleProposal(p)));
    } else {
      var w1 := Enters(net, faulty, w, h, p.view);
      Handles(net, w1, h, p);
      ReachesNext(net, faulty, w1, At(h, HandleProposal(p)));
      assert w1.engines[h := Joined(w1.engines[h], p)] == w.engines[h := Joined(w.engines[h], p)];
      ReachesThen(net, faulty, w, w1, Joins(w, h, p));
    }
  }

  lemma Enters(net: Committee, faulty: set<Hotkey>, w: World, h: Hotkey, view: nat) returns (w': World)
    requires h in w.engines && w.engines[h].view < view && Backed(net, w, view)
    ensures Reaches(net, faulty, w, w')
    ensures w' == w.(engines := w.engines[h := EnteringView(w.engines[h], view)])
  {
    w' := Next(net, w, At(h, EnterView(view)));
    ReachesNext(net, faulty, w, At(h, EnterView(view)));
  }

  lemma Handles(net: Committee, w: World, h: Hotkey, p: Proposal)
    requires Proper(net, p) && (p.proposer, VoteFor(p)) in w.signed
    requires h in w.engines && w.engines[h].me == h && w.engines[h].next == p.sequence && w.engines[h].view == p.view
    ensures ValidStep(w, At(h, HandleProposal(p))) && Next(net, w, At(h, HandleProposal(p))) == Joins(w, h, p)
  {
    assert OnProposal(net, w.engines[h], p) == (Joined(w.engines[h], p), Voted(VoteFor(p)));
    assert w.decided + {} == w.decided;
  }

  function JoinAll(w: World, members: seq<Hotkey>, p: Proposal): World {
    if members == [] then w else Joins(JoinAll(w, members[..|members| - 1], p), members[|members| - 1], p)
  }

  /** What a ballot leaves at one hotkey. */
  lemma {:induction false} JoinAllAt(w: World, members: seq<Hotkey>, p: Proposal, h: Hotkey)
    ensures var w' := JoinAll(w, members, p);
            && (h in w'.engines <==> h in w.engines) && w'.decided == w.decided && w'.asked == w.asked
            && (h in w.engines ==> w'.engines[h] == if h in members then Joined(w.engines[h], p) else w.engines[h])
            && (forall v :: (h, v) in w'.signed <==> (h, v) in w.signed || (h in members && v == VoteFor(p)))
  {
    if members == [] {
    } else {
      JoinAllAt(w, members[..|members| - 1], p, h);
      assert h in members <==> h in members[..|members| - 1] || h == members[|members| - 1];
    }
  }

  lemma {:induction false} ReachesJoinAll(net: Committee, faulty: set<Hotkey>, w: World, members: seq<Hotkey>,
        p: Proposal)
    requires Proper(net, p) && (p.proposer, VoteFor(p)) in w.signed
    requires forall h :: h in members ==> Ready(net, w, h, p, faulty)
    requires Distinct(members)
    ensures Reaches(net, faulty, w, JoinAll(w, members, p))
  {
    if members == [] {
      ReachesSelf(net, faulty, w);
    } else {
      var init, last := members[..|members| - 1], members[|members| - 1];
      var w1 := JoinAll(w, init, p);
      assert forall h :: h in init ==> h in members;
      assert last in members && last !in init && Ready(net, w, last, p, faulty);
      ReachesJoinAll(net, faulty, w, init, p);
      JoinAllAt(w, init, p, last);
      JoinAllAt(w, init, p, p.proposer);
      ReachesJoins(net, faulty, w1, last, p);
      ReachesThen(net, faulty, w, w1, JoinAll(w, members, p));
    }
  }

  function OpenRound(p: Proposal): Round {
    NewRound(p.view, p.sequence, p.content, p.content.dataHash)
  }

  /** The leader signs the proposal, as an engine or otherwise. */
  function Opens(w: World, p: Proposal): World {
    var l := p.proposer;
    w.(engines := if l in w.engines
                  then w.engines[l := w.engines[l].(view := p.view, round := Some(OpenRound(p)))] else w.engines,
       signed := w.signed + {(l, VoteFor(p))})
  }

  lemma ReachesOpens(net: Committee, faulty: set<Hotkey>, w: World, p: Proposal)
    requires Proper(net, p) && Ready(net, w, p.proposer, p, faulty)
    ensures Reaches(net, faulty, w, Opens(w, p))
  {
    var l := p.proposer;
    if l !in w.engines {
      ReachesNext(net, faulty, w, Elsewhere(l, VoteFor(p)));
    } else if w.engines[l].view == p.view {
      Proposes(net, w, p);
      ReachesNext(net, faulty, w, At(l, CreateProposal(false, p.content.data)));
    } else {
      var w1 := Enters(net, faulty, w, l, p.view);
      Proposes(net, w1, p);
      ReachesNext(net, faulty, w1, At(l, CreateProposal(false, p.content.data)));
      assert Opens(w, p).engines == Opens(w1, p).engines;
      ReachesThen(net, faulty, w, w1, Opens(w, p));
    }
  }

  lemma Proposes(net: Committee, w: World, p: Proposal)
    requires Proper(net, p) && p.proposer in w.engines
    requires var e := w.engines[p.proposer]; e.me == p.proposer && e.next == p.sequence && e.view == p.view
    ensures var step := At(p.proposer, CreateProposal(false, p.content.data)); ValidStep(w, step) && Next(net, w, step) == Opens(w, p)
  {
    assert w.decided + {} == w.decided;
  }

  // ---------------------------------------------------------------- one engine counts the votes

  ghost predicate OnlyAt(w: World, w': World, b: Hotkey) {
    && w'.signed == w.signed && w'.engines.Keys == w.engines.Keys
    && forall h :: h in w.engines && h != b ==> w'.engines[h] == w.engines[h]
  }

  /** Engine `b` is in a round on `vote`, which it signed, and `senders` are distinct validators who signed it too. */
  ghost predicate Counting(net: Committee, w: World, b: Hotkey, vote: Vote, senders: seq<Hotkey>) {
    && b in w.engines && w.engines[b].me == b && (b, vote) in w.signed
    && w.engines[b].round.Some? && w.engines[b].round.value.ToVote() == vote
    && Distinct(senders) && b !in senders
    && forall h :: h in senders ==> h in net.validators && (h, vote) in w.signed
  }

  lemma {:induction false} CountPrepares(net: Committee, faulty: set<Hotkey>, w: World, b: Hotkey, vote: Vote,
        senders: seq<Hotkey>)
    returns (w': World)
    requires Counting(net, w, b, vote, senders)
    requires var r := w.engines[b].round.value;
             && (forall h :: h in senders ==> h !in r.prepares)
             && CommitsFit(r, b)
             && (r.phase == Prepared || (senders != [] && |r.prepares| + |senders| >= net.Quorum()))
    ensures Reaches(net, faulty, w, w') && OnlyAt(w, w', b) && w'.decided == w.decided
    ensures var r, e' := w.engines[b].round.value, w'.engines[b];
            && e'.me == b && e'.round.Some? && e'.round.value.ToVote() == vote && e'.round.value.content == r.content
            && e'.round.value.phase == Prepared && e'.round.value.commits.Keys == {b}
    decreases |senders|
  {
    if senders == [] {
      w' := w;
      ReachesSelf(net, faulty, w);
    } else {
      var step := At(b, HandlePrepare(Message(senders[0], vote, true)));
      assert senders[0] in senders;
      var w1, e1 := HearPrepare(net, w, b, vote, senders[0]);
      ReachesNext(net, faulty, w, step);
      assert forall h :: h in senders[1..] ==> h in senders;
      w' := CountPrepares(net, faulty, w1, b, vote, senders[1..]);
      ReachesThen(net, faulty, w, w1, w');
    }
  }

  ghost predicate CommitsFit(r: Round, me: Hotkey) {
    if r.phase == Prepared then r.commits.Keys == {me} else r.commits == map[]
  }

  /** What one more prepare vote does to the round. */
  ghost predicate HeardPrepare(net: Committee, r: Round, r': Round, sender: Hotkey) {
    && r'.ToVote() == r.ToVote() && r'.content == r.content
    && r'.prepares.Keys == r.prepares.Keys + {sender} && |r'.prepares| == |r.prepares| + 1
    && (r'.phase == Prepared <==> r.phase == Prepared || |r.prepares| + 1 >= net.Quorum())
  }

  lemma EngineHearsPrepare(net: Committee, e: Engine, sender: Hotkey)
    requires e.round.Some? && sender in net.validators && sender !in e.round.value.prepares && CommitsFit(e.round.value, e.me)
    ensures var (e', reply) := OnPrepare(net, e, Message(sender, e.round.value.ToVote(), true));
            && e'.me == e.me && e'.round.Some?
            && HeardPrepare(net, e.round.value, e'.round.value, sender) && CommitsFit(e'.round.value, e.me)
            && (reply == Nothing || reply == Voted(e.round.value.ToVote()))
  {
    var r := e.round.value;
    var m := Message(sender, r.ToVote(), true);
    NewKey(r.prepares, sender, m);
    assert Refusal(net, e.round, m) == None;
  }

  lemma NewKey<V>(votes: map<Hotkey, V>, h: Hotkey, v: V)
    requires h !in votes
    ensures votes[h := v].Keys == votes.Keys + {h} && |votes[h := v]| == |votes| + 1
  {
    assert votes[h := v].Keys == votes.Keys + {h};
  }

  lemma HearPrepare(net: Committee, w: World, b: Hotkey, vote: Vote, sender: Hotkey) returns (w': World, e': Engine)
    requires Counting(net, w, b, vote, [sender]) && sender !in w.engines[b].round.value.prepares
    requires CommitsFit(w.engines[b].round.value, b)
    ensures var step := At(b, HandlePrepare(Message(sender, vote, true))); ValidStep(w, step) && w' == Next(net, w, step)
    ensures w' == w.(engines := w.engines[b := e']) && e'.me == b && e'.round.Some?
    ensures HeardPrepare(net, w.engines[b].round.value, e'.round.value, sender) && CommitsFit(e'.round.value, b)
  {
    assert sender in [sender];
    EngineHearsPrepare(net, w.engines[b], sender);
    w' := Replies(net, w, b, HandlePrepare(Message(sender, vote, true)), vote);
    e' := Exec(net, w.engines[b], HandlePrepare(Message(sender, vote, true))).0;
  }

  /** A step that signs at most what was signed, and decides nothing, changes only its engine. */
  lemma Replies(net: Committee, w: World, b: Hotkey, op: Op, vote: Vote) returns (w': World)
    requires b in w.engines && Genuine(op, w.signed) && (b, vote) in w.signed
    requires var reply := Exec(net, w.engines[b], op).1; reply == Nothing || reply == Voted(vote)
    ensures ValidStep(w, At(b, op)) && w' == Next(net, w, At(b, op))
    ensures w' == w.(engines := w.engines[b := Exec(net, w.engines[b], op).0])
  {
    w' := Next(net, w, At(b, op));
    assert w.signed + {(b, vote)} == w.signed && w.signed + {} == w.signed && w.decided + {} == w.decided;
  }

  lemma {:induction false} CountCommits(net: Committee, faulty: set<Hotkey>, w: World, b: Hotkey, vote: Vote,
        senders: seq<Hotkey>)
    returns (w': World, d: Decision)
    requires Counting(net, w, b, vote, senders)
    requires var r := w.engines[b].round.value;
             && (forall h :: h in senders ==> h !in r.commits) && r.phase == Prepared
             && senders != [] && |r.commits| + |senders| >= net.Quorum()
    ensures Reaches(net, faulty, w, w') && OnlyAt(w, w', b) && w'.decided == w.decided + {(b, d)}
    ensures d.view == vote.view && d.sequence == vote.sequence && d.content == w.engines[b].round.value.content
    decreases |senders|
  {
    var step := At(b, HandleCommit(Message(senders[0], vote, true)));
    assert senders[0] in senders;
    var w1, reply := HearCommit(net, w, b, vote, senders[0]);
    ReachesNext(net, faulty, w, step);
    if reply.Decided? {
      w', d := w1, reply.decision;
    } else {
      assert forall h :: h in senders[1..] ==> h in senders;
      w', d := CountCommits(net, faulty, w1, b, vote, senders[1..]);
      ReachesThen(net, faulty, w, w1, w');
    }
  }

  lemma HearCommit(net: Committee, w: World, b: Hotkey, vote: Vote, sender: Hotkey) returns (w': World, reply: Reply)
    requires Counting(net, w, b, vote, [sender]) && sender !in w.engines[b].round.value.commits
    requires w.engines[b].round.value.phase == Prepared
    ensures var step := At(b, HandleCommit(Message(sender, vote, true))); ValidStep(w, step) && w' == Next(net, w, step)
    ensures OnlyAt(w, w', b) && w'.engines[b].me == b
    ensures var r := w.engines[b].round.value;
            if |r.commits| + 1 >= net.Quorum() then
              && reply.Decided? && w'.decided == w.decided + {(b, reply.decision)}
              && reply.decision.view == vote.view && reply.decision.sequence == vote.sequence && reply.decision.content == r.content
            else
              && reply.Nothing? && w'.decided == w.decided && w'.engines[b].round.Some?
              && var r' := w'.engines[b].round.value;
                 && r'.ToVote() == vote && r'.content == r.content && r'.phase == Prepared
                 && r'.commits.Keys == r.commits.Keys + {sender} && |r'.commits| == |r.commits| + 1
  {
    assert sender in [sender];
    reply := OnCommit(net, w.engines[b], Message(sender, vote, true)).1;
    w' := Next(net, w, At(b, HandleCommit(Message(sender, vote, true))));
    assert w.signed + {} == w.signed && w.decided + {} == w.decided;
  }

  // ---------------------------------------------------------------- a whole ballot

  /** `h` stands at the sequence number in view `v0`, or is faulty. */
  ghost predicate Stands(w: World, h: Hotkey, s: nat, v0: nat, faulty: set<Hotkey>) {
    if h in w.engines then w.engines[h].me == h && w.engines[h].next == s && w.engines[h].view == v0 else h in faulty
  }

  /** Everyone outside `absent` asks for the view of the proposal, unless they are in it. */
  lemma Gather(net: Committee, faulty: set<Hotkey>, w: World, p: Proposal, absent: set<Hotkey>,
        v0: nat) returns (w': World)
    requires forall h :: h in net.validators - absent ==> Stands(w, h, p.sequence, v0, faulty)
    requires |net.validators - absent| >= net.Quorum() && v0 <= p.view
    ensures Reaches(net, faulty, w, w') && w' == w.(asked := w'.asked)
    ensures forall h :: h in net.validators - absent ==> Ready(net, w', h, p, faulty)
  {
    w' := w;
    if v0 == p.view {
      ReachesSelf(net, faulty, w);
      forall h | h in net.validators - absent ensures Ready(net, w', h, p, faulty) {
        assert Stands(w, h, p.sequence, v0, faulty);
      }
    } else {
      var members := SomeOrder(net.validators - absent);
      forall h | h in members ensures if h in w.engines then w.engines[h].view < p.view else h in faulty {
        assert Stands(w, h, p.sequence, v0, faulty);
      }
      ReachesAskAll(net, faulty, w, members, p.view);
      w' := AskAll(w, members, p.view);
      AskersBack(net, w', members, net.validators - absent, p.view);
      forall h | h in net.validators - absent ensures Ready(net, w', h, p, faulty) {
        assert Stands(w, h, p.sequence, v0, faulty);
      }
    }
  }

  /** Everyone outside `absent` gathers in the view and votes for the proposal, and `b` decides it. */
  lemma Ballot(net: Committee, faulty: set<Hotkey>, w: World, p: Proposal, absent: set<Hotkey>, v0: nat, b: Hotkey)
    returns (w': World, d: Decision)
    requires Proper(net, p) && {p.proposer, b} <= net.validators - absent && b in w.engines && b != p.proposer
    requires forall h :: h in net.validators - absent ==> Stands(w, h, p.sequence, v0, faulty)
    requires |net.validators - absent| >= net.Quorum() && v0 <= p.view
    ensures Reaches(net, faulty, w, w')
    ensures (b, d) in w'.decided && w.decided <= w'.decided
    ensures InView(d, p.sequence, p.view) && d.content == p.content
    ensures After(net, w, w', p, absent, b)
  {
    var w0 := Gather(net, faulty, w, p, absent, v0);
    w', d := Poll(net, faulty, w0, p, absent, b);
    ReachesThen(net, faulty, w, w0, w');
  }

  lemma Poll(net: Committee, faulty: set<Hotkey>, w: World, p: Proposal, absent: set<Hotkey>, b: Hotkey)
    returns (w': World, d: Decision)
    requires Proper(net, p) && {p.proposer, b} <= net.validators - absent && b in w.engines && b != p.proposer
    requires forall h :: h in net.validators - absent ==> Ready(net, w, h, p, faulty)
    requires |net.validators - absent| >= net.Quorum()
    ensures Reaches(net, faulty, w, w')
    ensures (b, d) in w'.decided && w.decided <= w'.decided
    ensures InView(d, p.sequence, p.view) && d.content == p.content
    ensures After(net, w, w', p, absent, b)
  {
    var w1 := Opens(w, p);
    ReachesOpens(net, faulty, w, p);
    var members := SomeOrder(net.validators - absent - {p.proposer});
    forall h | h in members ensures Ready(net, w1, h, p, faulty) {
      assert Ready(net, w, h, p, faulty);
      assert Backed(net, w, p.view) ==> Backed(net, w1, p.view);
    }
    ReachesJoinAll(net, faulty, w1, members, p);
    var w2 := JoinAll(w1, members, p);
    ReachesThen(net, faulty, w, w1, w2);
    VotesCast(net, w, p, absent, members);
    var senders := SomeOrder(net.validators - absent - {b});
    JoinAllAt(w1, members, p, b);
    assert Ready(net, w, b, p, faulty);
    EnumerationSize(senders, net.validators - absent - {b});
    assert p.proposer in senders;
    w', d := Count(net, faulty, w2, b, p, senders);
    ReachesThen(net, faulty, w, w2, w');
    AfterCount(net, w, w2, w', p, absent, members, b);
  }

  /** What a ballot leaves behind: the votes, and nothing else of note outside `b`. */
  ghost predicate After(net: Committee, w: World, w': World, p: Proposal, absent: set<Hotkey>, b: Hotkey) {
    && w'.engines.Keys == w.engines.Keys
    && (forall h :: h in w.engines && h != b ==> Follows(net, w.engines[h], w'.engines[h], p, absent, h))
    && (forall h, v :: (h, v) in w'.signed <==> (h, v) in w.signed || (h in net.validators - absent && v == VoteFor(p)))
  }

  /** An engine after a ballot: same place in the sequence, and in the view it voted in. */
  predicate Follows(net: Committee, e: Engine, e': Engine, p: Proposal, absent: set<Hotkey>, h: Hotkey) {
    e'.me == e.me && e'.next == e.next && e'.view == if h in net.validators - absent then p.view else e.view
  }

  lemma VotesCast(net: Committee, w: World, p: Proposal, absent: set<Hotkey>, members: seq<Hotkey>)
    requires p.proposer in net.validators - absent && Enumerates(members, net.validators - absent - {p.proposer})
    ensures var w2 := JoinAll(Opens(w, p), members, p);
            && w2.decided == w.decided && w2.engines.Keys == w.engines.Keys
            && (forall h :: h in w.engines ==> Follows(net, w.engines[h], w2.engines[h], p, absent, h))
            && (forall h, v :: (h, v) in w2.signed <==> (h, v) in w.signed || (h in net.validators - absent && v == VoteFor(p)))
  {
    var w1 := Opens(w, p);
    var w2 := JoinAll(w1, members, p);
    JoinAllAt(w1, members, p, p.proposer);
    forall h ensures h in w2.engines <==> h in w.engines {
      JoinAllAt(w1, members, p, h);
    }
    forall h | h in w.engines ensures Follows(net, w.engines[h], w2.engines[h], p, absent, h) {
      JoinAllAt(w1, members, p, h);
    }
    forall h, v ensures (h, v) in w2.signed <==> (h, v) in w.signed || (h in net.validators - absent && v == VoteFor(p)) {
      JoinAllAt(w1, members, p, h);
    }
  }

  lemma AfterCount(net: Committee, w: World, w2: World, w': World, p: Proposal, absent: set<Hotkey>,
        members: seq<Hotkey>, b: Hotkey)
    requires p.proposer in net.validators - absent && Enumerates(members, net.validators - absent - {p.proposer})
    requires w2 == JoinAll(Opens(w, p), members, p) && OnlyAt(w2, w', b)
    ensures After(net, w, w', p, absent, b)
  {
    VotesCast(net, w, p, absent, members);
  }

  lemma Count(net: Committee, faulty: set<Hotkey>, w: World, b: Hotkey, p: Proposal, senders: seq<Hotkey>)
    returns (w': World, d: Decision)
    requires b in w.engines && w.engines[b].me == b && w.engines[b].next == p.sequence && w.engines[b] == Joined(w.engines[b], p)
    requires Counting(net, w, b, VoteFor(p), senders) && senders != [] && 1 + |senders| >= net.Quorum()
    ensures Reaches(net, faulty, w, w') && OnlyAt(w, w', b) && w'.decided == w.decided + {(b, d)}
    ensures InView(d, p.sequence, p.view) && d.content == p.content
  {
    var vote := VoteFor(p);
    var r := w.engines[b].round.value;
    assert r.prepares.Keys == {b} && |r.prepares| == 1;
    var w1 := CountPrepares(net, faulty, w, b, vote, senders);
    var r1 := w1.engines[b].round.value;
    assert |r1.commits| == |r1.commits.Keys| == 1;
    w', d := CountCommits(net, faulty, w1, b, vote, senders);
    ReachesThen(net, faulty, w, w1, w');
  }

  // ---------------------------------------------------------------- two ballots

  /** The voters of the two ballots can be found: enough engines outside the leaders. */
  lemma Deciders(able: set<Hotkey>, l1: Hotkey, l2: Hotkey) returns (b: Hotkey, d: Hotkey)
    requires |able| >= 3
    ensures b in able && d in able && b != l1 && b != l2 && d != b && d != l2
  {
    b := Besides(able, l1, l2);
    d := Besides(able, b, l2);
  }

  lemma Besides(s: set<Hotkey>, x: Hotkey, y: Hotkey) returns (z: Hotkey)
    requires |s| >= 3
    ensures z in s && z != x && z != y
  {
    assert |{x, y}| <= 2;
    if s <= {x, y} {
      SubsetSize(s, {x, y});
    }
    z :| z in s && z !in {x, y};
  }

  lemma TwoBallots(net: Committee, faulty: set<Hotkey>, w: World, p1: Proposal, p2: Proposal, v0: nat, h1: Hotkey,
        h2: Hotkey)
    returns (w': World, d1: Decision, d2: Decision)
    requires Proper(net, p1) && Proper(net, p2) && p1.sequence == p2.sequence && v0 <= p1.view <= p2.view
    requires p1.proposer in net.validators && p2.proposer in net.validators && {h1, h2} <= net.validators * w.engines.Keys
    requires h1 != p1.proposer && h1 != p2.proposer && h2 != h1 && h2 != p2.proposer
    requires forall h :: h in net.validators ==> Stands(w, h, p1.sequence, v0, faulty)
    requires |net.validators| > net.Quorum()
    ensures Reaches(net, faulty, w, w')
    ensures (h1, d1) in w'.decided && InView(d1, p1.sequence, p1.view) && d1.content == p1.content
    ensures (h2, d2) in w'.decided && InView(d2, p2.sequence, p2.view) && d2.content == p2.content
    ensures (h2, VoteFor(p1)) in w'.signed && (h2, VoteFor(p2)) in w'.signed
    ensures forall h, v :: (h, v) in w'.signed ==> (h, v) in w.signed || v == VoteFor(p1) || v == VoteFor(p2)
  {
    assert net.validators - {} == net.validators;
    var w1;
    w1, d1 := Ballot(net, faulty, w, p1, {}, v0, h1);
    assert |net.validators - {h1}| == |net.validators| - 1;
    forall h | h in net.validators - {h1} ensures Stands(w1, h, p2.sequence, p1.view, faulty) {
      assert Stands(w, h, p1.sequence, v0, faulty);
    }
    w', d2 := Ballot(net, faulty, w1, p2, {h1}, p1.view, h2);
    ReachesThen(net, faulty, w, w1, w');
  }

  /**
   * From any world whose engines, three at least, stand at `s` in one view, not beyond `v1`: for data of
   * two hashes in `v1` and a later view `v2`, or both in one, there is an orderly run in which two
   * engines decide one each, and in which nobody signs anything else for `s`. The second decider signed both.
   */
  lemma ConflictingRun(net: Committee, w: World, s: nat, v0: nat, v1: nat, x: seq<u8>, v2: nat, y: seq<u8>)
    returns (w': World, h1: Hotkey, d1: Decision, h2: Hotkey, d2: Decision)
    requires Enumerates(net.byStake, net.validators) && |net.validators * w.engines.Keys| >= 3 && Level(net, w, s, v0)
    requires v0 <= v1 <= v2
    ensures Reaches(net, net.validators - w.engines.Keys, w, w')
    ensures (h1, d1) in w'.decided && InView(d1, s, v1) && d1.content == Content(false, x, net.digest(x))
    ensures (h2, d2) in w'.decided && InView(d2, s, v2) && d2.content == Content(false, y, net.digest(y))
    ensures h2 in w.engines && {(h2, Vote(v1, s, net.digest(x))), (h2, Vote(v2, s, net.digest(y)))} <= w'.signed
    ensures forall h, v :: (h, v) in w'.signed ==>
                             (h, v) in w.signed || v == Vote(v1, s, net.digest(x)) || v == Vote(v2, s, net.digest(y))
  {
    EnumerationSize(net.byStake, net.validators);
    var l1, l2 := LeaderIn(net, v1), LeaderIn(net, v2);
    h1, h2 := Deciders(net.validators * w.engines.Keys, l1, l2);
    SubsetSize(net.validators * w.engines.Keys, net.validators);
    var p1, p2 := ProposalOf(l1, v1, s, x, net.digest(x)), ProposalOf(l2, v2, s, y, net.digest(y));
    forall h | h in net.validators ensures Stands(w, h, s, v0, net.validators - w.engines.Keys) {
    }
    w', d1, d2 := TwoBallots(net, net.validators - w.engines.Keys, w, p1, p2, v0, h1, h2);
  }

  /** The same for views in either order: the earlier ballot comes first. */
  lemma ConflictEitherWay(net: Committee, w: World, s: nat, v0: nat, v1: nat, x: seq<u8>, v2: nat, y: seq<u8>)
    returns (w': World, h1: Hotkey, d1: Decision, h2: Hotkey, d2: Decision)
    requires Enumerates(net.byStake, net.validators) && |net.validators * w.engines.Keys| >= 3 && Level(net, w, s, v0)
    requires v0 <= v1 && v0 <= v2
    ensures Reaches(net, net.validators - w.engines.Keys, w, w')
    ensures (h1, d1) in w'.decided && InView(d1, s, v1) && d1.content == Content(false, x, net.digest(x))
    ensures (h2, d2) in w'.decided && InView(d2, s, v2) && d2.content == Content(false, y, net.digest(y))
    ensures forall h, v :: (h, v) in w'.signed ==>
                             (h, v) in w.signed || v == Vote(v1, s, net.digest(x)) || v == Vote(v2, s, net.digest(y))
  {
    if v1 <= v2 {
      w', h1, d1, h2, d2 := ConflictingRun(net, w, s, v0, v1, x, v2, y);
    } else {
      w', h2, d2, h1, d1 := ConflictingRun(net, w, s, v0, v2, y, v1, x);
    }
  }

  // ---------------------------------------------------------------- main results

  /**
   * Agreement, exactly. With any number of faulty validators beside three honest ones or more (so with at
   * most f of n >= 4), and engines standing at sequence number `s` in a view not beyond `v1` and `v2`
   * (which may be one view): decisions of `s` in those views agree in every run in which the leaders keep
   * to a rule `may`, if and only if the rule leaves them one hash. Restricting the runs to orderly ones
   * makes no difference.
   */
  lemma AgreementExactly(net: Committee, w: World, s: nat, v0: nat, v1: nat, v2: nat, may: (nat, Hash) -> bool)
    requires Enumerates(net.byStake, net.validators) && |net.validators * w.engines.Keys| >= 3 && Level(net, w, s, v0)
    requires v0 <= v1 && v0 <= v2 && KeepsTo(net, w.signed, s, may)
    ensures AlwaysAgree(net, w, s, v1, v2, may) <==> OneHash(net, v1, v2, may)
    ensures OrderlyAgree(net, w, s, v1, v2, may) <==> OneHash(net, v1, v2, may)
  {
    if OneHash(net, v1, v2, may) {
      forall steps | ValidRun(net, w, steps) && KeepsTo(net, Run(net, w, steps).signed, s, may)
        ensures Agree(Run(net, w, steps), s, v1, v2)
      {
        RunSound(net, w, steps);
        BoundLeadersAgree(net, Run(net, w, steps), s, v1, v2, may);
      }
    } else {
      UnboundLeadersDisagree(net, w, s, v0, v1, v2, may);
    }
  }

  lemma UnboundLeadersDisagree(net: Committee, w: World, s: nat, v0: nat, v1: nat, v2: nat, may: (nat, Hash) -> bool)
    requires Enumerates(net.byStake, net.validators) && |net.validators * w.engines.Keys| >= 3 && Level(net, w, s, v0)
    requires v0 <= v1 && v0 <= v2 && KeepsTo(net, w.signed, s, may) && !OneHash(net, v1, v2, may)
    ensures !AlwaysAgree(net, w, s, v1, v2, may) && !OrderlyAgree(net, w, s, v1, v2, may)
  {
    var x, y :| may(v1, net.digest(x)) && may(v2, net.digest(y)) && net.digest(x) != net.digest(y);
    var w', h1, d1, h2, d2 := ConflictEitherWay(net, w, s, v0, v1, x, v2, y);
    var steps := SomeRun(net, net.validators - w.engines.Keys, w, w');
    assert KeepsTo(net, w'.signed, s, may);
    assert !Agree(w', s, v1, v2);
  }

  /** A finished orderly run with two decisions of one sequence number and different hashes. */
  ghost predicate Conflict(net: Committee, honest: set<Hotkey>, steps: seq<Step>, h1: Hotkey, d1: Decision,
        h2: Hotkey, d2: Decision) {
    && ValidRun(net, Start(honest), steps) && Orderly(net, Start(honest), steps, net.validators - honest)
    && (h1, d1) in Run(net, Start(honest), steps).decided && (h2, d2) in Run(net, Start(honest), steps).decided
    && d1.sequence == d2.sequence && d1.content.dataHash != d2.content.dataHash
  }

  /**
   * The engines need the rule even if nobody is faulty: with all validators honest, no restart, and views
   * entered only upwards and by a quorum's wish, two leaders that propose different data for one sequence number in
   * different views get both decided.
   */
  lemma HonestViewsDisagree(net: Committee, v1: nat, x: seq<u8>, v2: nat, y: seq<u8>)
    returns (steps: seq<Step>, h1: Hotkey, d1: Decision, h2: Hotkey, d2: Decision)
    requires Enumerates(net.byStake, net.validators) && |net.validators| >= 3 && net.digest(x) != net.digest(y)
    ensures Conflict(net, net.validators, steps, h1, d1, h2, d2) && d1.view == v1 && d2.view == v2
  {
    StartSound(net, net.validators);
    assert net.validators * net.validators == net.validators;
    var w';
    w', h1, d1, h2, d2 := ConflictEitherWay(net, Start(net.validators), 1, 0, v1, x, v2, y);
    steps := SomeRun(net, net.validators - net.validators, Start(net.validators), w');
  }

  /**
   * Within one view: a single faulty validator, leading it, gets two hashes decided by honest engines,
   * because honest engines vote for each proposal of their leader. One of those deciders signed both.
   */
  lemma FaultyLeaderSplitsView(net: Committee, view: nat, x: seq<u8>, y: seq<u8>)
    returns (steps: seq<Step>, h1: Hotkey, d1: Decision, h2: Hotkey, d2: Decision)
    requires Enumerates(net.byStake, net.validators) && |net.validators| >= 4 && net.digest(x) != net.digest(y)
    ensures var honest := net.validators - {LeaderIn(net, view)};
            && Conflict(net, honest, steps, h1, d1, h2, d2) && d1.view == d2.view == view
            && h2 in honest && SignedTwice(h2, Run(net, Start(honest), steps).signed, view, 1)
  {
    var honest := net.validators - {LeaderIn(net, view)};
    EnumerationSize(net.byStake, net.validators);
    StartSound(net, honest);
    assert net.validators - honest == {LeaderIn(net, view)} && net.validators * honest == honest;
    var w';
    w', h1, d1, h2, d2 := ConflictingRun(net, Start(honest), 1, 0, view, x, view, y);
    steps := SomeRun(net, net.validators - honest, Start(honest), w');
    assert (h2, Vote(view, 1, net.digest(x))) in w'.signed && (h2, Vote(view, 1, net.digest(y))) in w'.signed;
  }

  function LeaderIn(net: Committee, view: nat): (l: Hotkey)
    requires net.byStake != []
    ensures net.Leader(view) == Some(l) && l in net.byStake
  {
    net.byStake[view % |net.byStake|]
  }

  /** The results above apply: a network of four honest validators, with data as its own digest. */
  lemma FourValidators() returns (net: Committee, w: World)
    ensures Enumerates(net.byStake, net.validators) && |net.validators| == 4 && net.digest([0]) != net.digest([1])
    ensures w == Start(net.validators) && |net.validators * w.engines.Keys| == 4 && Level(net, w, 1, 0)
  {
    var byStake := seq(4, (i: nat) => Chain.Hotkey([if i < 4 then i else 0]));
    var validators := set h | h in byStake;
    assert forall i :: 0 <= i < 4 ==> byStake[i].bytes[0] == i;
    assert Enumerates(byStake, validators);
    EnumerationSize(byStake, validators);
    net := Committee(validators, byStake, byStake[0], data => data);
    w := Start(net.validators);
    StartSound(net, net.validators);
    assert net.validators * w.engines.Keys == net.validators;
  }
}
