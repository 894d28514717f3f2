/**
 * Reconciling the chain state's validators with the Bittensor metagraph: drop the unregistered,
 * refresh changed stakes, admit newcomers while there is room. Hash-map iteration orders are
 * parameters; time stamps are not modelled.
 */
module ValidatorSyncing {
  import opened Base
  import opened Chain

  type Validators = map<Hotkey, ValidatorInfo>

  datatype MetagraphValidator = MetagraphValidator(hotkey: Hotkey, stake: u64, active: bool)

  datatype SyncResult = SyncResult(added: nat, removed: nat, updated: nat, skippedBanned: nat, total: nat)

  /** What a sync works from; `bt` is the metagraph list keyed by hotkey. */
  datatype Target = Target(bt: map<Hotkey, MetagraphValidator>, banned: set<Hotkey>, sudoKey: Hotkey, config: NetworkConfig)

  /** A later entry for the same hotkey replaces an earlier one. */
  function ByHotkey(list: seq<MetagraphValidator>): map<Hotkey, MetagraphValidator> {
    if list == [] then map[] else ByHotkey(list[..|list| - 1])[list[|list| - 1].hotkey := list[|list| - 1]]
  }

  // ---------------------------------------------------------------- the two loops

  predicate Stays(t: Target, h: Hotkey) {
    h in t.bt || h == t.sudoKey
  }

  /** What the first loop leaves, whatever its order. */
  function Kept(vs: Validators, t: Target): Validators {
    map h | h in vs && Stays(t, h) :: vs[h]
  }

  predicate Admissible(t: Target, vs: Validators, h: Hotkey)
    requires h in t.bt
  {
    h !in t.banned && h !in vs && |vs| < t.config.maxValidators && t.bt[h].stake >= t.config.minStake
  }

  predicate Outdated(t: Target, vs: Validators, h: Hotkey)
    requires h in t.bt
  {
    h !in t.banned && h in vs && vs[h].stake != t.bt[h].stake
  }

  /** One turn of the second loop. */
  function Visit(t: Target, vs: Validators, h: Hotkey): Validators
    requires h in t.bt
  {
    if Outdated(t, vs, h) then vs[h := vs[h].(stake := t.bt[h].stake, isActive := t.bt[h].active)]
    else if Admissible(t, vs, h) then vs[h := NewValidator(h, t.bt[h].stake)]
    else vs
  }

  predicate Within(order: seq<Hotkey>, t: Target) {
    forall h :: h in order ==> h in t.bt
  }

  function VisitAll(t: Target, vs: Validators, order: seq<Hotkey>): Validators
    requires Within(order, t)
  {
    if order == [] then vs else Visit(t, VisitAll(t, vs, order[..|order| - 1]), order[|order| - 1])
  }

  function Admitted(t: Target, vs: Validators, order: seq<Hotkey>): seq<Hotkey>
    requires Within(order, t)
  {
    if order == [] then []
    else
      var init, last := order[..|order| - 1], order[|order| - 1];
      Admitted(t, vs, init) + if Admissible(t, VisitAll(t, vs, init), last) then [last] else []
  }

  function CountUpdated(t: Target, vs: Validators, order: seq<Hotkey>): nat
    requires Within(order, t)
  {
    if order == [] then 0
    else
      var init, last := order[..|order| - 1], order[|order| - 1];
      CountUpdated(t, vs, init) + if Outdated(t, VisitAll(t, vs, init), last) then 1 else 0
  }

  function CountBanned(t: Target, order: seq<Hotkey>): nat {
    if order == [] then 0
    else CountBanned(t, order[..|order| - 1]) + if order[|order| - 1] in t.banned then 1 else 0
  }

  function Sync(vs: Validators, t: Target, order: seq<Hotkey>): Validators
    requires Within(order, t)
  {
    VisitAll(t, Kept(vs, t), order)
  }

  /**
   * Nobody has to go, or someone new is let in: only the latter retakes the hash of the chain state, and
   * removals do not.
   */
  predicate HashStaysCurrent(vs: Validators, t: Target) {
    var kept := Kept(vs, t);
    kept == vs || (|kept| < t.config.maxValidators && Newcomers(t, kept) != {})
  }

  // ---------------------------------------------------------------- the implementation

  method RemoveUnregistered(state: ChainState, t: Target, order: seq<Hotkey>) returns (removed: nat)
    requires Enumerates(order, state.validators.Keys)
    modifies state`validators
    ensures state.validators == Kept(old(state.validators), t)
    ensures removed + |state.validators| == |old(state.validators)|
  {
    removed := 0;
    ghost var vs := state.validators;
    for i := 0 to |order|
      invariant state.validators == StillThere(vs, t, order[i..])
      invariant removed + |state.validators| == |vs|
    {
      var h := order[i];
      assert order[i..] == [h] + order[i + 1..];
      assert h in order;
      LoopRemoves(vs, t, h, order[i + 1..]);
      if h !in t.bt && h != t.sudoKey {
        state.validators := state.validators - {h};
        removed := removed + 1;
      }
    }
  }

  /** The first loop with the hotkeys `rest` still to visit. */
  ghost function StillThere(vs: Validators, t: Target, rest: seq<Hotkey>): Validators {
    map h | h in vs && (Stays(t, h) || h in rest) :: vs[h]
  }

  lemma LoopRemoves(vs: Validators, t: Target, h: Hotkey, rest: seq<Hotkey>)
    requires h in vs && h !in rest
    ensures var before, after := StillThere(vs, t, [h] + rest), StillThere(vs, t, rest);
            if Stays(t, h) then before == after else after == before - {h} && |after| == |before| - 1
  {
    var before, after := StillThere(vs, t, [h] + rest), StillThere(vs, t, rest);
    assert forall x :: x in [h] + rest <==> x == h || x in rest;
    if !Stays(t, h) {
      assert after == before - {h};
      assert after.Keys == before.Keys - {h};
    }
  }

  datatype Outcome = Banned | Updated | Added | Unchanged

  method VisitOne(state: ChainState, t: Target, h: Hotkey) returns (outcome: Outcome)
    requires h in t.bt && t.config == state.config
    modifies state
    ensures state.validators == Visit(t, old(state.validators), h)
    ensures outcome.Banned? <==> h in t.banned
    ensures outcome.Updated? <==> Outdated(t, old(state.validators), h)
    ensures outcome.Added? <==> Admissible(t, old(state.validators), h)
    ensures state.Value() == old(state.Value()).(validators := state.validators, stateHash := state.stateHash)
    ensures state.stateHash == if outcome.Added? then state.Value().Summarise() else old(state.stateHash)
    ensures !outcome.Added? ==> |state.validators| == |old(state.validators)|
  {
    outcome := Unchanged;
    if h in t.banned {
      outcome := Banned;
    } else if h in state.validators {
      if state.validators[h].stake != t.bt[h].stake {
        var refreshed := state.validators[h].(stake := t.bt[h].stake, isActive := t.bt[h].active);
        KeepsSize(state.validators, h, refreshed);
        state.validators := state.validators[h := refreshed];
        outcome := Updated;
      }
    } else {
      var ok := state.AddValidator(NewValidator(h, t.bt[h].stake));
      if ok {
        outcome := Added;
      }
    }
  }

  method AddAndRefresh(state: ChainState, t: Target, order: seq<Hotkey>) returns (added: nat, updated: nat,
        skipped: nat)
    requires Enumerates(order, t.bt.Keys) && t.config == state.config
    modifies state
    ensures state.validators == VisitAll(t, old(state.validators), order)
    ensures added == |Admitted(t, old(state.validators), order)|
    ensures updated == CountUpdated(t, old(state.validators), order)
    ensures skipped == CountBanned(t, order)
    ensures state.Value() == old(state.Value()).(validators := state.validators, stateHash := state.stateHash)
    ensures state.stateHash == if added > 0 then state.Value().Summarise() else old(state.stateHash)
  {
    added, updated, skipped := 0, 0, 0;
    for i := 0 to |order|
      invariant state.validators == VisitAll(t, old(state.validators), order[..i])
      invariant added == |Admitted(t, old(state.validators), order[..i])|
      invariant updated == CountUpdated(t, old(state.validators), order[..i])
      invariant skipped == CountBanned(t, order[..i])
      invariant state.Value() == old(state.Value()).(validators := state.validators, stateHash := state.stateHash)
      invariant state.stateHash == if added > 0 then state.Value().Summarise() else old(state.stateHash)
    {
      SplitLast(order, i);
      var h := order[i];
      assert h in order;
      var outcome := VisitOne(state, t, h);
      match outcome {
        case Banned => skipped := skipped + 1;
        case Updated => updated := updated + 1;
        case Added => added := added + 1;
        case Unchanged =>
      }
    }
    assert order[..|order|] == order;
  }

  lemma KeepsSize(vs: Validators, h: Hotkey, v: ValidatorInfo)
    requires h in vs
    ensures |vs[h := v]| == |vs|
  {
    assert vs[h := v].Keys == vs.Keys;
  }

  method CollectByHotkey(list: seq<MetagraphValidator>) returns (bt: map<Hotkey, MetagraphValidator>)
    ensures bt == ByHotkey(list)
  {
    bt := map[];
    for i := 0 to |list|
      invariant bt == ByHotkey(list[..i])
    {
      SplitLast(list, i);
      bt := bt[list[i].hotkey := list[i]];
    }
    assert list[..|list|] == list;
  }

  /** `update_state`, for any iteration order of the two hash maps it walks. */
  method UpdateState(state: ChainState, list: seq<MetagraphValidator>, banned: set<Hotkey>,
                     removeOrder: seq<Hotkey>, addOrder: seq<Hotkey>) returns (result: SyncResult)
    requires Enumerates(removeOrder, state.validators.Keys)
    requires Enumerates(addOrder, ByHotkey(list).Keys)
    modifies state
    ensures var t := Target(ByHotkey(list), banned, state.sudoKey, state.config);
            var kept := Kept(old(state.validators), t);
            && state.validators == Sync(old(state.validators), t, addOrder)
            && result.added == |Admitted(t, kept, addOrder)|
            && result.removed == |old(state.validators)| - |kept|
            && result.updated == CountUpdated(t, kept, addOrder)
            && result.skippedBanned == CountBanned(t, addOrder)
            && result.total == |state.validators|
    ensures state.Value() == old(state.Value()).(validators := state.validators, stateHash := state.stateHash)
    ensures old(state.stateHash == state.Value().Summarise()) ==>
              var t := Target(ByHotkey(list), banned, state.sudoKey, state.config);
              (state.stateHash == state.Value().Summarise() <==> HashStaysCurrent(old(state.validators), t))
  {
    var bt := CollectByHotkey(list);
    var t := Target(bt, banned, state.sudoKey, state.config);
    var removed := RemoveUnregistered(state, t, removeOrder);
    var added, updated, skipped := AddAndRefresh(state, t, addOrder);
    if added == 0 {
      VisitAllSize(t, Kept(old(state.validators), t), addOrder);
    }
    AdmitsSomeone(t, Kept(old(state.validators), t), addOrder);
    SameSizeKept(old(state.validators), t);
    result := SyncResult(added, removed, updated, skipped, |state.validators|);
  }

  // ---------------------------------------------------------------- accounting

  lemma {:induction false} VisitAllSize(t: Target, vs: Validators, order: seq<Hotkey>)
    requires Within(order, t)
    ensures |VisitAll(t, vs, order)| == |vs| + |Admitted(t, vs, order)|
  {
    if order == [] {
    } else {
      var init, last := order[..|order| - 1], order[|order| - 1];
      VisitAllSize(t, vs, init);
      VisitSize(t, VisitAll(t, vs, init), last);
    }
  }

  lemma VisitSize(t: Target, vs: Validators, h: Hotkey)
    requires h in t.bt
    ensures |Visit(t, vs, h)| == |vs| + if Admissible(t, vs, h) then 1 else 0
  {
    var after := Visit(t, vs, h);
    if Admissible(t, vs, h) {
      assert after.Keys == vs.Keys + {h};
    } else {
      assert after.Keys == vs.Keys;
    }
  }

  lemma {:induction false} VisitAllKeys(t: Target, vs: Validators, order: seq<Hotkey>, h: Hotkey)
    requires Within(order, t)
    ensures h in VisitAll(t, vs, order) <==> h in vs || h in Admitted(t, vs, order)
    ensures h in Admitted(t, vs, order) ==> h in order
  {
    if order == [] {
    } else {
      VisitAllKeys(t, vs, order[..|order| - 1], h);
    }
  }

  /** total = old - removed + added, and whoever remains is in the metagraph or is the sudo key. */
  lemma Accounting(vs: Validators, t: Target, order: seq<Hotkey>)
    requires Enumerates(order, t.bt.Keys)
    ensures |Sync(vs, t, order)| == |vs| - (|vs| - |Kept(vs, t)|) + |Admitted(t, Kept(vs, t), order)|
    ensures forall h :: h in Sync(vs, t, order) ==> h in t.bt || h == t.sudoKey
  {
    VisitAllSize(t, Kept(vs, t), order);
    forall h | h in Sync(vs, t, order) ensures h in t.bt || h == t.sudoKey {
      VisitAllKeys(t, Kept(vs, t), order, h);
    }
  }

  // ---------------------------------------------------------------- a second sync does nothing

  /** Visiting `h` again would change nothing. */
  ghost predicate Settled(t: Target, vs: Validators, h: Hotkey)
    requires h in t.bt
  {
    !Outdated(t, vs, h) && !Admissible(t, vs, h)
  }

  lemma VisitSettles(t: Target, vs: Validators, h: Hotkey, x: Hotkey)
    requires h in t.bt && x in t.bt
    ensures Settled(t, Visit(t, vs, h), h)
    ensures Settled(t, vs, x) ==> Settled(t, Visit(t, vs, h), x)
  {
    VisitSize(t, vs, h);
  }

  lemma {:induction false} AllSettled(t: Target, vs: Validators, order: seq<Hotkey>, x: Hotkey)
    requires Within(order, t) && x in order
    ensures Settled(t, VisitAll(t, vs, order), x)
  {
    var init, last := order[..|order| - 1], order[|order| - 1];
    if x in init {
      AllSettled(t, vs, init, x);
    }
    VisitSettles(t, VisitAll(t, vs, init), last, x);
  }

  lemma {:induction false} NothingToDo(t: Target, vs: Validators, order: seq<Hotkey>)
    requires Within(order, t)
    requires forall h :: h in order ==> Settled(t, vs, h)
    ensures VisitAll(t, vs, order) == vs && Admitted(t, vs, order) == [] && CountUpdated(t, vs, order) == 0
  {
    if order == [] {
    } else {
      NothingToDo(t, vs, order[..|order| - 1]);
      assert order[|order| - 1] in order;
    }
  }

  /**
   * Repeating the sync with the same metagraph and ban set removes, adds and updates nobody and
   * changes nothing, in any order, even when the first one ran out of capacity.
   */
  lemma SecondSyncIdle(vs: Validators, t: Target, order: seq<Hotkey>, again: seq<Hotkey>)
    requires Enumerates(order, t.bt.Keys) && Enumerates(again, t.bt.Keys)
    ensures var once := Sync(vs, t, order);
            && Kept(once, t) == once && Sync(once, t, again) == once
            && Admitted(t, Kept(once, t), again) == [] && CountUpdated(t, Kept(once, t), again) == 0
  {
    var once := Sync(vs, t, order);
    Accounting(vs, t, order);
    assert Kept(once, t) == once;
    forall h | h in again ensures Settled(t, once, h) {
      AllSettled(t, Kept(vs, t), order, h);
    }
    NothingToDo(t, once, again);
  }

  // ---------------------------------------------------------------- when the order matters

  /** The newcomers that would be admitted given room. */
  function Newcomers(t: Target, vs: Validators): set<Hotkey> {
    set h | h in t.bt && h !in t.banned && h !in vs && t.bt[h].stake >= t.config.minStake
  }

  lemma {:induction false} AdmittedAreNewcomers(t: Target, vs: Validators, order: seq<Hotkey>)
    requires Within(order, t) && Distinct(order)
    ensures Distinct(Admitted(t, vs, order))
    ensures forall h :: h in Admitted(t, vs, order) ==> h in Newcomers(t, vs) && h in order
  {
    if order == [] {
    } else {
      var init, last := order[..|order| - 1], order[|order| - 1];
      AdmittedAreNewcomers(t, vs, init);
      VisitAllKeys(t, vs, init, last);
    }
  }

  /** No more can be admitted than there are newcomers among those visited. */
  lemma AdmittedFewer(t: Target, vs: Validators, order: seq<Hotkey>, h: Hotkey)
    requires Within(order, t) && Distinct(order) && h !in order && h in Newcomers(t, vs)
    ensures |Admitted(t, vs, order)| < |Newcomers(t, vs)|
  {
    var taken := Admitted(t, vs, order);
    AdmittedAreNewcomers(t, vs, order);
    var s := set x | x in taken;
    EnumerationSize(taken, s);
    assert s <= Newcomers(t, vs) - {h};
    SubsetSize(s, Newcomers(t, vs) - {h});
  }

  /** With room for every newcomer, each one visited is admitted. */
  lemma {:induction false} RoomForAll(t: Target, vs: Validators, order: seq<Hotkey>, h: Hotkey)
    requires Within(order, t) && Distinct(order) && h in order && h in Newcomers(t, vs)
    requires |vs| + |Newcomers(t, vs)| <= t.config.maxValidators
    ensures h in Admitted(t, vs, order)
  {
    var init, last := order[..|order| - 1], order[|order| - 1];
    if h in init {
      RoomForAll(t, vs, init, h);
    } else {
      assert h == last;
      VisitAllSize(t, vs, init);
      AdmittedFewer(t, vs, init, h);
      VisitAllKeys(t, vs, init, h);
    }
  }

  /** Someone is admitted, in every order, if and only if there is a newcomer and any room at all. */
  lemma AdmitsSomeone(t: Target, vs: Validators, order: seq<Hotkey>)
    requires Enumerates(order, t.bt.Keys)
    ensures Admitted(t, vs, order) != [] <==> |vs| < t.config.maxValidators && Newcomers(t, vs) != {}
  {
    if |vs| >= t.config.maxValidators {
      NoRoom(t, vs, order);
    } else if Newcomers(t, vs) == {} {
      NobodyNew(t, vs, order);
    } else {
      var h :| h in Newcomers(t, vs);
      NewcomerMeetsRoom(t, vs, order, h);
    }
  }

  lemma {:induction false} NobodyNew(t: Target, vs: Validators, order: seq<Hotkey>)
    requires Within(order, t) && Newcomers(t, vs) == {}
    ensures Admitted(t, vs, order) == []
  {
    if order == [] {
    } else {
      var init, last := order[..|order| - 1], order[|order| - 1];
      NobodyNew(t, vs, init);
      VisitAllKeys(t, vs, init, last);
      assert last !in Newcomers(t, vs);
    }
  }

  /** When nobody has been admitted yet, the next newcomer is. */
  lemma {:induction false} NewcomerMeetsRoom(t: Target, vs: Validators, order: seq<Hotkey>, h: Hotkey)
    requires Within(order, t) && h in order && h in Newcomers(t, vs) && |vs| < t.config.maxValidators
    ensures Admitted(t, vs, order) != []
  {
    var init, last := order[..|order| - 1], order[|order| - 1];
    if h in init {
      NewcomerMeetsRoom(t, vs, init, h);
    } else if Admitted(t, vs, init) == [] {
      VisitAllSize(t, vs, init);
      VisitAllKeys(t, vs, init, h);
      assert h == last;
    }
  }

  lemma SameSizeKept(vs: Validators, t: Target)
    ensures |Kept(vs, t)| == |vs| <==> Kept(vs, t) == vs
  {
    var kept := Kept(vs, t);
    if exists h :: h in vs && h !in kept {
      var h :| h in vs && h !in kept;
      SubsetSize(kept.Keys, vs.Keys - {h});
    } else {
      assert kept == vs;
    }
  }

  /**
   * A sync that leaves the hash stale: the only validator is gone from the metagraph and nobody comes, so
   * the summary that was hashed counts one validator too many.
   */
  lemma HashGoesStale(s: State, gone: Hotkey, t: Target)
    requires s.stateHash == s.Summarise() && s.validators.Keys == {gone}
    requires t.bt == map[] && gone != t.sudoKey
    ensures !HashStaysCurrent(s.validators, t)
    ensures s.(validators := Sync(s.validators, t, [])).Summarise() != s.stateHash
  {
    assert Kept(s.validators, t) == map[];
    assert Newcomers(t, map[]) == {};
    assert gone in s.validators.Keys;
  }

  lemma {:induction false} NoRoom(t: Target, vs: Validators, order: seq<Hotkey>)
    requires Within(order, t) && |vs| >= t.config.maxValidators
    ensures Admitted(t, vs, order) == []
  {
    if order == [] {
    } else {
      NoRoom(t, vs, order[..|order| - 1]);
      VisitAllSize(t, vs, order[..|order| - 1]);
    }
  }

  /** What the sync leaves at one hotkey. */
  lemma {:induction false} VisitAllAt(t: Target, vs: Validators, order: seq<Hotkey>, h: Hotkey)
    requires Within(order, t) && Distinct(order)
    ensures h in vs ==> h in VisitAll(t, vs, order) &&
                        VisitAll(t, vs, order)[h] == if h in order then Visit(t, vs, h)[h] else vs[h]
    ensures h !in vs && h in VisitAll(t, vs, order) ==>
              h in t.bt && VisitAll(t, vs, order)[h] == NewValidator(h, t.bt[h].stake)
  {
    if order == [] {
    } else {
      VisitAllAt(t, vs, order[..|order| - 1], h);
      assert h in order <==> h in order[..|order| - 1] || h == order[|order| - 1];
    }
  }

  /**
   * In any order: whoever is kept and not banned ends with the metagraph's stake, taking over its
   * activity only when the stake differed; a banned or unlisted one keeps its record; and whoever is
   * new has the metagraph's stake, at least the minimum, and is not banned.
   */
  lemma FinalRecords(vs: Validators, t: Target, order: seq<Hotkey>, h: Hotkey)
    requires Enumerates(order, t.bt.Keys)
    ensures var after := Sync(vs, t, order);
            && (h in vs && Stays(t, h) ==> h in after)
            && (h in vs && h in t.bt && h !in t.banned ==>
                  && after[h].stake == t.bt[h].stake
                  && after[h].isActive == if vs[h].stake != t.bt[h].stake then t.bt[h].active else vs[h].isActive)
            && (h in vs && Stays(t, h) && (h in t.banned || h !in t.bt) ==> after[h] == vs[h])
            && (h in after && h !in vs ==>
                  h in t.bt && h !in t.banned && after[h].stake == t.bt[h].stake >= t.config.minStake && after[h].isActive)
  {
    var kept := Kept(vs, t);
    VisitAllAt(t, kept, order, h);
    VisitAllKeys(t, kept, order, h);
    AdmittedAreNewcomers(t, kept, order);
  }

  lemma SameAdmittedSameResult(t: Target, vs: Validators, a: seq<Hotkey>, b: seq<Hotkey>)
    requires Enumerates(a, t.bt.Keys) && Enumerates(b, t.bt.Keys)
    requires forall h :: h in Admitted(t, vs, a) <==> h in Admitted(t, vs, b)
    ensures VisitAll(t, vs, a) == VisitAll(t, vs, b)
  {
    var va, vb := VisitAll(t, vs, a), VisitAll(t, vs, b);
    forall h ensures (h in va <==> h in vb) && (h in va ==> va[h] == vb[h]) {
      VisitAllKeys(t, vs, a, h);
      VisitAllKeys(t, vs, b, h);
      VisitAllAt(t, vs, a, h);
      VisitAllAt(t, vs, b, h);
    }
  }

  lemma {:induction false} FirstIsAdmitted(t: Target, vs: Validators, order: seq<Hotkey>)
    requires Within(order, t) && order != [] && order[0] in Newcomers(t, vs) && |vs| < t.config.maxValidators
    ensures order[0] in Admitted(t, vs, order)
  {
    var init := order[..|order| - 1];
    if init != [] {
      FirstIsAdmitted(t, vs, init);
    } else {
      assert VisitAll(t, vs, init) == vs;
    }
  }

  lemma {:induction false} AdmittedFits(t: Target, vs: Validators, order: seq<Hotkey>)
    requires Within(order, t) && |vs| <= t.config.maxValidators
    ensures |vs| + |Admitted(t, vs, order)| <= t.config.maxValidators
  {
    if order == [] {
    } else {
      AdmittedFits(t, vs, order[..|order| - 1]);
      VisitAllSize(t, vs, order[..|order| - 1]);
    }
  }

  /** Too many newcomers for the room left: some order leaves one out, another order takes that one first. */
  lemma OrdersDiffer(t: Target, vs: Validators) returns (a: seq<Hotkey>, b: seq<Hotkey>)
    requires |vs| < t.config.maxValidators < |vs| + |Newcomers(t, vs)|
    ensures Enumerates(a, t.bt.Keys) && Enumerates(b, t.bt.Keys)
    ensures VisitAll(t, vs, a) != VisitAll(t, vs, b)
  {
    a := SomeOrder(t.bt.Keys);
    var taken := Admitted(t, vs, a);
    AdmittedFits(t, vs, a);
    AdmittedAreNewcomers(t, vs, a);
    var s := set x | x in taken;
    EnumerationSize(taken, s);
    var h := Outside(s, Newcomers(t, vs));
    var rest := SomeOrder(t.bt.Keys - {h});
    b := [h] + rest;
    assert h !in rest;
    assert forall x :: x in b <==> x == h || x in rest;
    FirstIsAdmitted(t, vs, b);
    VisitAllKeys(t, vs, a, h);
    VisitAllKeys(t, vs, b, h);
  }

  /**
   * The outcome is the same for every iteration order if and only if there is room for all newcomers
   * beside the validators kept, or no room at all.
   */
  lemma OrderIndependence(vs: Validators, t: Target)
    ensures var kept := Kept(vs, t);
            (forall a, b :: Enumerates(a, t.bt.Keys) && Enumerates(b, t.bt.Keys) ==> Sync(vs, t, a) == Sync(vs, t, b)) <==>
            (|kept| + |Newcomers(t, kept)| <= t.config.maxValidators || |kept| >= t.config.maxValidators)
  {
    var kept := Kept(vs, t);
    if |kept| < t.config.maxValidators < |kept| + |Newcomers(t, kept)| {
      var a, b := OrdersDiffer(t, kept);
      assert Sync(vs, t, a) != Sync(vs, t, b);
    } else {
      forall a, b | Enumerates(a, t.bt.Keys) && Enumerates(b, t.bt.Keys) ensures Sync(vs, t, a) == Sync(vs, t, b) {
        if |kept| >= t.config.maxValidators {
          NoRoom(t, kept, a);
          NoRoom(t, kept, b);
        } else {
          AdmitsAll(t, kept, a);
          AdmitsAll(t, kept, b);
        }
        SameAdmittedSameResult(t, kept, a, b);
      }
    }
  }

  lemma AdmitsAll(t: Target, vs: Validators, order: seq<Hotkey>)
    requires Enumerates(order, t.bt.Keys) && |vs| + |Newcomers(t, vs)| <= t.config.maxValidators
    ensures forall h :: h in Admitted(t, vs, order) <==> h in Newcomers(t, vs)
  {
    AdmittedAreNewcomers(t, vs, order);
    forall h | h in Newcomers(t, vs) ensures h in Admitted(t, vs, order) {
      RoomForAll(t, vs, order, h);
    }
  }

  // ---------------------------------------------------------------- the bounds of the chain state

  ghost predicate AllMeetMinimum(vs: Validators, config: NetworkConfig) {
    forall h :: h in vs ==> vs[h].stake >= config.minStake
  }

  /**
   * The capacity bound of the chain state survives every sync. The minimum stake survives it, in any order,
   * if and only if the metagraph gives no validator already there, unless banned, less than the minimum.
   */
  lemma BoundsAfterSync(vs: Validators, t: Target, order: seq<Hotkey>)
    requires Enumerates(order, t.bt.Keys) && |vs| <= t.config.maxValidators && AllMeetMinimum(vs, t.config)
    ensures |Sync(vs, t, order)| <= t.config.maxValidators
    ensures AllMeetMinimum(Sync(vs, t, order), t.config) <==>
            forall h :: h in vs && h in t.bt && h !in t.banned ==> t.bt[h].stake >= t.config.minStake
  {
    var kept, after := Kept(vs, t), Sync(vs, t, order);
    SubsetSize(kept.Keys, vs.Keys);
    AdmittedFits(t, kept, order);
    VisitAllSize(t, kept, order);
    forall h ensures h in vs && h in t.bt && h !in t.banned ==> h in after && after[h].stake == t.bt[h].stake {
      FinalRecords(vs, t, order, h);
    }
    forall h | h in after ensures after[h].stake >= t.config.minStake || (h in vs && h in t.bt && h !in t.banned) {
      FinalRecords(vs, t, order, h);
      Accounting(vs, t, order);
    }
  }

  // ---------------------------------------------------------------- in terms of the metagraph list

  predicate Lists(list: seq<MetagraphValidator>, h: Hotkey) {
    exists i :: 0 <= i < |list| && list[i].hotkey == h
  }

  /** Every entry counts, active or not; of several for one hotkey the last. */
  lemma {:induction false} LastEntryCounts(list: seq<MetagraphValidator>, h: Hotkey)
    ensures h in ByHotkey(list) <==> Lists(list, h)
    ensures h in ByHotkey(list) ==>
              exists i :: && 0 <= i < |list| && list[i].hotkey == h && list[i] == ByHotkey(list)[h]
                          && forall j :: i < j < |list| ==> list[j].hotkey != h
  {
    if list == [] {
    } else {
      var init, last := list[..|list| - 1], list[|list| - 1];
      LastEntryCounts(init, h);
      if last.hotkey == h {
        assert list[|list| - 1].hotkey == h;
      } else if h in ByHotkey(init) {
        var i :| 0 <= i < |init| && init[i].hotkey == h && init[i] == ByHotkey(init)[h] &&
                 forall j :: i < j < |init| ==> init[j].hotkey != h;
        assert list[i] == init[i];
        assert forall j :: i < j < |list| ==> list[j].hotkey != h;
      } else {
        assert forall i :: 0 <= i < |list| ==> list[i].hotkey != h;
      }
    }
  }

  /** Entry `i` is the last for its hotkey. */
  predicate Decides(list: seq<MetagraphValidator>, i: nat)
    requires i < |list|
  {
    forall j :: i < j < |list| ==> list[j].hotkey != list[i].hotkey
  }

  lemma DecidingEntry(list: seq<MetagraphValidator>, i: nat)
    requires i < |list| && Decides(list, i)
    ensures list[i].hotkey in ByHotkey(list) && ByHotkey(list)[list[i].hotkey] == list[i]
  {
    LastEntryCounts(list, list[i].hotkey);
    var k :| 0 <= k < |list| && list[k].hotkey == list[i].hotkey && list[k] == ByHotkey(list)[list[i].hotkey] &&
             forall j :: k < j < |list| ==> list[j].hotkey != list[i].hotkey;
  }

  /** A validator is removed if and only if the list has no entry for it and it is not the sudo key. */
  lemma RemovedExactly(vs: Validators, list: seq<MetagraphValidator>, banned: set<Hotkey>, sudoKey: Hotkey,
        config: NetworkConfig, order: seq<Hotkey>, h: Hotkey)
    requires Enumerates(order, ByHotkey(list).Keys) && h in vs
    ensures var t := Target(ByHotkey(list), banned, sudoKey, config);
            h !in Sync(vs, t, order) <==> !Lists(list, h) && h != sudoKey
  {
    var t := Target(ByHotkey(list), banned, sudoKey, config);
    LastEntryCounts(list, h);
    FinalRecords(vs, t, order, h);
    Accounting(vs, t, order);
  }

  /** What the entry that counts for a hotkey makes of the validator. */
  lemma EntryTaken(vs: Validators, list: seq<MetagraphValidator>, banned: set<Hotkey>, sudoKey: Hotkey,
        config: NetworkConfig, order: seq<Hotkey>, i: nat)
    requires Enumerates(order, ByHotkey(list).Keys) && i < |list| && Decides(list, i)
    ensures var after, m := Sync(vs, Target(ByHotkey(list), banned, sudoKey, config), order), list[i];
            var h := m.hotkey;
            if h in vs then
              && h in after
              && after[h] == if h in banned || vs[h].stake == m.stake then vs[h]
                             else vs[h].(stake := m.stake, isActive := m.active)
            else
              h in after ==> after[h] == NewValidator(h, m.stake) && h !in banned && m.stake >= config.minStake
  {
    var t := Target(ByHotkey(list), banned, sudoKey, config);
    var kept := Kept(vs, t);
    DecidingEntry(list, i);
    VisitAllAt(t, kept, order, list[i].hotkey);
    FinalRecords(vs, t, order, list[i].hotkey);
    assert list[i].hotkey in order;
  }

  // ---------------------------------------------------------------- the counts reported

  lemma {:induction false} UpdatedAre(t: Target, vs: Validators, order: seq<Hotkey>)
    requires Within(order, t) && Distinct(order)
    ensures CountUpdated(t, vs, order) == |set h | h in order && Outdated(t, vs, h)|
  {
    if order == [] {
    } else {
      var init, last := order[..|order| - 1], order[|order| - 1];
      UpdatedAre(t, vs, init);
      VisitAllAt(t, vs, init, last);
      VisitAllKeys(t, vs, init, last);
      assert forall h :: h in order <==> h in init || h == last;
      var before, after := set h | h in init && Outdated(t, vs, h), set h | h in order && Outdated(t, vs, h);
      assert last !in before;
      assert after == if Outdated(t, vs, last) then before + {last} else before;
    }
  }

  lemma {:induction false} BannedAre(t: Target, order: seq<Hotkey>)
    requires Distinct(order)
    ensures CountBanned(t, order) == |set h | h in order && h in t.banned|
  {
    if order == [] {
    } else {
      var init, last := order[..|order| - 1], order[|order| - 1];
      BannedAre(t, init);
      assert forall h :: h in order <==> h in init || h == last;
      var before, after := set h | h in init && h in t.banned, set h | h in order && h in t.banned;
      assert last !in before;
      assert after == if last in t.banned then before + {last} else before;
    }
  }

  function Min(a: int, b: int): int {
    if a <= b then a else b
  }

  /** Newcomers are admitted until they or the room run out. */
  lemma AdmittedAre(t: Target, vs: Validators, order: seq<Hotkey>)
    requires Enumerates(order, t.bt.Keys) && |vs| <= t.config.maxValidators
    ensures |Admitted(t, vs, order)| == Min(t.config.maxValidators - |vs|, |Newcomers(t, vs)|)
  {
    var taken := Admitted(t, vs, order);
    AdmittedFits(t, vs, order);
    AdmittedAreNewcomers(t, vs, order);
    VisitAllSize(t, vs, order);
    var s := set x | x in taken;
    EnumerationSize(taken, s);
    SubsetSize(s, Newcomers(t, vs));
    if |taken| < |Newcomers(t, vs)| {
      var h := Outside(s, Newcomers(t, vs));
      AllSettled(t, vs, order, h);
      VisitAllKeys(t, vs, order, h);
    }
  }

  /**
   * The counts of a sync, in terms of who was there before: those refreshed had another stake, those
   * skipped are listed and banned, and of the newcomers as many are added as there is room for.
   */
  lemma Counts(vs: Validators, t: Target, order: seq<Hotkey>)
    requires Enumerates(order, t.bt.Keys)
    ensures var kept := Kept(vs, t);
            && CountUpdated(t, kept, order) == |set h | h in vs && h in t.bt && h !in t.banned && vs[h].stake != t.bt[h].stake|
            && CountBanned(t, order) == |t.bt.Keys * t.banned|
            && (|kept| <= t.config.maxValidators ==>
                  |Admitted(t, kept, order)| == Min(t.config.maxValidators - |kept|, |Newcomers(t, kept)|))
            && (|kept| > t.config.maxValidators ==> Admitted(t, kept, order) == [])
  {
    var kept := Kept(vs, t);
    UpdatedAre(t, kept, order);
    assert (set h | h in order && Outdated(t, kept, h))
           == set h | h in vs && h in t.bt && h !in t.banned && vs[h].stake != t.bt[h].stake;
    BannedAre(t, order);
    assert (set h | h in order && h in t.banned) == t.bt.Keys * t.banned;
    if |kept| <= t.config.maxValidators {
      AdmittedAre(t, kept, order);
    } else {
      NoRoom(t, kept, order);
    }
  }
}
