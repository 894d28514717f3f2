/**
 * The challenge orchestrator's own reconciler. It keeps only the instance map, and a Docker error
 * ends the whole sync at that point.
 */
module Orchestrator {
  import opened Base
  import opened Lifecycle

  /** `running` is Docker's own state. `ok` turns false at the first error and the sync stops there. */
  datatype Fleet = Fleet(challenges: map<ChallengeId, Instance>, running: Containers, calls: nat, ok: bool)

  // ---------------------------------------------------------------- operations

  /** A start first removes whatever container has its name. */
  function Starting(w: Fleet, c: Config, d: Docker): Fleet {
    if !d.pullOk then w.(calls := w.calls + 1, ok := false)
    else if !d.startOk then
      w.(running := if d.cleared then w.running - {ContainerName(c)} else w.running, calls := w.calls + 2, ok := false)
    else
      w.(challenges := w.challenges[c.challengeId := Started(c, d)], running := w.running[ContainerName(c) := d.containerId],
         calls := w.calls + 2)
  }

  /** Stops the old container if there is one; it is not removed. */
  function Replace(w: Fleet, c: Config, d: Docker): Fleet {
    if c.challengeId !in w.challenges then Starting(w, c, d)
    else if !d.stopOk then w.(calls := w.calls + 1, ok := false)
    else Starting(w.(running := Without(w.running, w.challenges[c.challengeId].containerId), calls := w.calls + 1), c, d)
  }

  /** The instance is forgotten before the Docker calls. */
  function Drop(w: Fleet, id: ChallengeId, d: Docker): Fleet {
    var w1 := w.(challenges := w.challenges - {id});
    if id !in w.challenges then w1
    else if !d.stopOk then w1.(calls := w.calls + 1, ok := false)
    else w1.(running := Without(w.running, w.challenges[id].containerId), calls := w.calls + 2, ok := w.ok && d.removeOk)
  }

  predicate Differs(w: Fleet, c: Config) {
    c.challengeId in w.challenges ==> w.challenges[c.challengeId].image != c.dockerImage
  }

  function DropAll(w: Fleet, ids: seq<ChallengeId>, ds: seq<Docker>): Fleet
    requires |ids| == |ds|
  {
    if ids == [] then w
    else
      var w1 := DropAll(w, ids[..|ids| - 1], ds[..|ids| - 1]);
      if w1.ok then Drop(w1, ids[|ids| - 1], ds[|ids| - 1]) else w1
  }

  function ReplaceAll(w: Fleet, targets: seq<Config>, ds: seq<Docker>): Fleet
    requires |targets| == |ds|
  {
    if targets == [] then w
    else
      var w1, c := ReplaceAll(w, targets[..|targets| - 1], ds[..|targets| - 1]), targets[|targets| - 1];
      if w1.ok && Differs(w1, c) then Replace(w1, c, ds[|targets| - 1]) else w1
  }

  predicate ValidOrders(w: Fleet, targets: seq<Config>, stale: seq<ChallengeId>, ds: seq<Docker>, ds': seq<Docker>) {
    Enumerates(stale, w.challenges.Keys - Ids(targets)) && |stale| == |ds| && |targets| == |ds'|
  }

  function Synced(w: Fleet, targets: seq<Config>, stale: seq<ChallengeId>, ds: seq<Docker>, ds': seq<Docker>): Fleet
    requires |stale| == |ds| && |targets| == |ds'|
  {
    ReplaceAll(DropAll(w, stale, ds), targets, ds')
  }

  // ---------------------------------------------------------------- the implementation

  class ChallengeOrchestrator {
    var challenges: map<ChallengeId, Instance>
    var running: Containers
    var calls: nat

    ghost function Value(ok: bool): Fleet
      reads this
    {
      Fleet(challenges, running, calls, ok)
    }

    constructor ()
      ensures Value(true) == Fleet(map[], map[], 0, true)
    {
      challenges, running, calls := map[], map[], 0;
    }

    method UpdateChallenge(c: Config, d: Docker) returns (ok: bool)
      modifies this
      ensures Value(ok) == Replace(old(Value(true)), c, d)
    {
      if c.challengeId in challenges {
        calls := calls + 1;
        if !d.stopOk {
          return false;
        }
        running := Without(running, challenges[c.challengeId].containerId);
      }
      calls := calls + 1;
      if !d.pullOk {
        return false;
      }
      calls := calls + 1;
      if !d.startOk {
        if d.cleared {
          running := running - {ContainerName(c)};
        }
        return false;
      }
      running := running[ContainerName(c) := d.containerId];
      challenges := challenges[c.challengeId := Started(c, d)];
      ok := true;
    }

    method RemoveChallenge(id: ChallengeId, d: Docker) returns (ok: bool)
      modifies this
      ensures Value(ok) == Drop(old(Value(true)), id, d)
    {
      var instance := if id in challenges then Some(challenges[id]) else None;
      challenges := challenges - {id};
      if instance.Some? {
        calls := calls + 1;
        if !d.stopOk {
          return false;
        }
        running := Without(running, instance.value.containerId);
        calls := calls + 1;
        if !d.removeOk {
          return false;
        }
      }
      ok := true;
    }

    method RemoveStale(stale: seq<ChallengeId>, ds: seq<Docker>) returns (ok: bool)
      requires |stale| == |ds|
      modifies this
      ensures Value(ok) == DropAll(old(Value(true)), stale, ds)
    {
      ghost var w := Value(true);
      for i := 0 to |stale|
        invariant Value(true) == DropAll(w, stale[..i], ds[..i])
      {
        SplitLast(stale, i);
        assert ds[..i + 1][..i] == ds[..i];
        ok := RemoveChallenge(stale[i], ds[i]);
        if !ok {
          DropStops(w, stale, ds, i + 1);
          return;
        }
      }
      assert stale[..|stale|] == stale && ds[..|ds|] == ds;
      ok := true;
    }

    method ApplyTargets(targets: seq<Config>, ds: seq<Docker>) returns (ok: bool)
      requires |targets| == |ds|
      modifies this
      ensures Value(ok) == ReplaceAll(old(Value(true)), targets, ds)
    {
      ghost var w := Value(true);
      for i := 0 to |targets|
        invariant Value(true) == ReplaceAll(w, targets[..i], ds[..i])
      {
        SplitLast(targets, i);
        assert ds[..i + 1][..i] == ds[..i];
        var id := targets[i].challengeId;
        if id !in challenges || challenges[id].image != targets[i].dockerImage {
          ok := UpdateChallenge(targets[i], ds[i]);
          if !ok {
            ReplaceStops(w, targets, ds, i + 1);
            return;
          }
        }
      }
      assert targets[..|targets|] == targets && ds[..|ds|] == ds;
      ok := true;
    }

    method SyncChallenges(targets: seq<Config>, stale: seq<ChallengeId>, ds: seq<Docker>,
          ds': seq<Docker>) returns (ok: bool)
      requires ValidOrders(Value(true), targets, stale, ds, ds')
      modifies this
      ensures Value(ok) == Synced(old(Value(true)), targets, stale, ds, ds')
    {
      ok := RemoveStale(stale, ds);
      if !ok {
        ReplaceStopped(Value(false), targets, ds');
        return;
      }
      ok := ApplyTargets(targets, ds');
    }
  }

  /** Once stopped, the rest of a loop changes nothing. */
  lemma {:induction false} DropStops(w: Fleet, ids: seq<ChallengeId>, ds: seq<Docker>, n: nat)
    requires |ids| == |ds| && n <= |ids| && !DropAll(w, ids[..n], ds[..n]).ok
    ensures DropAll(w, ids, ds) == DropAll(w, ids[..n], ds[..n])
    decreases |ids|
  {
    if n == |ids| {
      assert ids[..n] == ids && ds[..n] == ds;
    } else {
      assert ids[..|ids| - 1][..n] == ids[..n] && ds[..|ids| - 1][..n] == ds[..n];
      DropStops(w, ids[..|ids| - 1], ds[..|ids| - 1], n);
    }
  }

  lemma {:induction false} ReplaceStops(w: Fleet, targets: seq<Config>, ds: seq<Docker>, n: nat)
    requires |targets| == |ds| && n <= |targets| && !ReplaceAll(w, targets[..n], ds[..n]).ok
    ensures ReplaceAll(w, targets, ds) == ReplaceAll(w, targets[..n], ds[..n])
    decreases |targets|
  {
    if n == |targets| {
      assert targets[..n] == targets && ds[..n] == ds;
    } else {
      assert targets[..|targets| - 1][..n] == targets[..n] && ds[..|targets| - 1][..n] == ds[..n];
      ReplaceStops(w, targets[..|targets| - 1], ds[..|targets| - 1], n);
    }
  }

  lemma ReplaceStopped(w: Fleet, targets: seq<Config>, ds: seq<Docker>)
    requires |targets| == |ds| && !w.ok
    ensures ReplaceAll(w, targets, ds) == w
  {
    ReplaceStops(w, targets, ds, 0);
  }

  // ---------------------------------------------------------------- a completed sync records the targets

  ghost predicate RecordsImage(w: Fleet, targets: seq<Config>, id: ChallengeId) {
    && (id in w.challenges <==> HasId(targets, id))
    && (HasId(targets, id) ==> w.challenges[id].image == LastImage(targets, id))
  }

  ghost predicate RecordsTargets(w: Fleet, targets: seq<Config>) {
    forall id :: RecordsImage(w, targets, id)
  }

  lemma {:induction false} DropAllAt(w: Fleet, ids: seq<ChallengeId>, ds: seq<Docker>, id: ChallengeId)
    requires |ids| == |ds|
    ensures var w' := DropAll(w, ids, ds);
            && (w'.ok ==> w.ok)
            && (w'.ok ==> (id in w'.challenges <==> id in w.challenges && id !in ids))
            && (id in w'.challenges ==> id in w.challenges && w'.challenges[id] == w.challenges[id])
  {
    if ids == [] {
    } else {
      DropAllAt(w, ids[..|ids| - 1], ds[..|ids| - 1], id);
    }
  }

  lemma {:induction false} ReplaceAllAt(w: Fleet, targets: seq<Config>, ds: seq<Docker>, id: ChallengeId)
    requires |targets| == |ds|
    ensures var w' := ReplaceAll(w, targets, ds);
            && (w'.ok ==> w.ok)
            && (!HasId(targets, id) ==> SameInstance(w, w', id))
            && (w'.ok && HasId(targets, id) ==> id in w'.challenges && w'.challenges[id].image == LastImage(targets, id))
  {
    if targets == [] {
    } else {
      ReplaceAllAt(w, targets[..|targets| - 1], ds[..|targets| - 1], id);
    }
  }

  lemma OkMeansAtTarget(w: Fleet, targets: seq<Config>, stale: seq<ChallengeId>, ds: seq<Docker>, ds': seq<Docker>)
    requires ValidOrders(w, targets, stale, ds, ds') && Synced(w, targets, stale, ds, ds').ok
    ensures RecordsTargets(Synced(w, targets, stale, ds, ds'), targets)
  {
    var w1 := DropAll(w, stale, ds);
    forall id ensures RecordsImage(Synced(w, targets, stale, ds, ds'), targets, id) {
      DropAllAt(w, stale, ds, id);
      ReplaceAllAt(w1, targets, ds', id);
      HasIdIsMembership(targets, id);
    }
  }

  // ---------------------------------------------------------------- self-healing

  predicate Faultless(ds: seq<Docker>) {
    forall i :: 0 <= i < |ds| ==> ds[i].stopOk && ds[i].removeOk && ds[i].pullOk && ds[i].startOk
  }

  lemma {:induction false} DropAllOk(w: Fleet, ids: seq<ChallengeId>, ds: seq<Docker>)
    requires |ids| == |ds| && w.ok && Faultless(ds)
    ensures DropAll(w, ids, ds).ok
  {
    if ids == [] {
    } else {
      DropAllOk(w, ids[..|ids| - 1], ds[..|ids| - 1]);
    }
  }

  lemma {:induction false} ReplaceAllOk(w: Fleet, targets: seq<Config>, ds: seq<Docker>)
    requires |targets| == |ds| && w.ok && Faultless(ds)
    ensures ReplaceAll(w, targets, ds).ok
  {
    if targets == [] {
    } else {
      ReplaceAllOk(w, targets[..|targets| - 1], ds[..|targets| - 1]);
    }
  }

  /**
   * From every instance map, however it came about (a sync aborted at any Docker error included), a
   * call without failures ends with exactly the targets recorded, each with the image last asked for.
   */
  lemma SelfHealing(w: Fleet, targets: seq<Config>, stale: seq<ChallengeId>, ds: seq<Docker>, ds': seq<Docker>)
    requires w.ok && ValidOrders(w, targets, stale, ds, ds') && Faultless(ds) && Faultless(ds')
    ensures Synced(w, targets, stale, ds, ds').ok
    ensures RecordsTargets(Synced(w, targets, stale, ds, ds'), targets)
  {
    DropAllOk(w, stale, ds);
    ReplaceAllOk(DropAll(w, stale, ds), targets, ds');
    OkMeansAtTarget(w, targets, stale, ds, ds');
  }

  // ---------------------------------------------------------------- who runs after a sync

  predicate Up(w: Fleet, id: ChallengeId) {
    Runs(w.challenges, w.running, id)
  }

  ghost predicate SameInstance(w: Fleet, w': Fleet, id: ChallengeId) {
    (id in w.challenges <==> id in w'.challenges) && (id in w.challenges ==> w.challenges[id] == w'.challenges[id])
  }

  /** A replacement that succeeds runs its challenge, and stops another only by taking its name. */
  lemma ReplaceUp(w: Fleet, c: Config, d: Docker, id: ChallengeId)
    requires Separate(w.challenges) && d.containerId !in ContainerIds(w.challenges) && w.ok && Replace(w, c, d).ok
    ensures var w' := Replace(w, c, d);
            && Up(w', c.challengeId) && w'.challenges[c.challengeId].containerName == ContainerName(c)
            && (id != c.challengeId ==>
                  (Up(w', id) <==> Up(w, id) && w.challenges[id].containerName != ContainerName(c)) && SameInstance(w, w', id))
  {
    if c.challengeId in w.challenges {
      var stopped := Without(w.running, w.challenges[c.challengeId].containerId);
      if id != c.challengeId {
        StopsOnlyOne(w.challenges, w.running, c.challengeId, id);
      }
      StartTakesName(w.challenges, stopped, c, d, id);
    } else {
      StartTakesName(w.challenges, w.running, c, d, id);
    }
  }

  lemma ReplaceSeparate(w: Fleet, c: Config, d: Docker)
    requires Separate(w.challenges) && d.containerId !in ContainerIds(w.challenges)
    ensures var w' := Replace(w, c, d);
            Separate(w'.challenges) && ContainerIds(w'.challenges) <= ContainerIds(w.challenges) + {d.containerId}
  {
    RecordFresh(w.challenges, c.challengeId, Started(c, d));
  }

  lemma {:induction false} DropAllUp(w: Fleet, ids: seq<ChallengeId>, ds: seq<Docker>, id: ChallengeId)
    requires |ids| == |ds| && Separate(w.challenges)
    ensures var w' := DropAll(w, ids, ds);
            && Separate(w'.challenges) && ContainerIds(w'.challenges) <= ContainerIds(w.challenges)
            && (id !in ids ==> (Up(w', id) <==> Up(w, id)) && SameInstance(w, w', id))
  {
    if ids == [] {
    } else {
      var n := |ids| - 1;
      DropAllUp(w, ids[..n], ds[..n], id);
      assert ids[n] in ids && forall x :: x in ids[..n] ==> x in ids;
      DropUp(DropAll(w, ids[..n], ds[..n]), ids[n], ds[n], id);
    }
  }

  lemma DropUp(w: Fleet, id: ChallengeId, d: Docker, other: ChallengeId)
    requires Separate(w.challenges)
    ensures var w' := Drop(w, id, d);
            && Separate(w'.challenges) && ContainerIds(w'.challenges) <= ContainerIds(w.challenges)
            && (other != id ==> (Up(w', other) <==> Up(w, other)) && SameInstance(w, w', other))
  {
  }

  function Images(w: Fleet): map<ChallengeId, string> {
    map id | id in w.challenges :: w.challenges[id].image
  }

  ghost predicate LoopUp(w: Fleet, w': Fleet, targets: seq<Config>, ds: seq<Docker>, id: ChallengeId) {
    && Grown(w.challenges, w'.challenges, ds)
    && (Up(w', id) <==> KeepsRunning(Images(w), targets, id, Up(w, id), NameOf(w.challenges, id)))
    && NameOf(w'.challenges, id) == Own(Images(w), targets, id, NameOf(w.challenges, id))
  }

  lemma {:induction false} ReplaceAllUp(w: Fleet, targets: seq<Config>, ds: seq<Docker>, id: ChallengeId)
    requires w.ok && |targets| == |ds| && Separate(w.challenges) && FreshIds(w.challenges, ds)
    requires ReplaceAll(w, targets, ds).ok
    ensures LoopUp(w, ReplaceAll(w, targets, ds), targets, ds, id)
  {
    if targets == [] {
    } else {
      var n := |targets| - 1;
      var w1 := ReplaceAll(w, targets[..n], ds[..n]);
      ReplaceAllUp(w, targets[..n], ds[..n], id);
      ReplaceAllAt(w, targets[..n], ds[..n], targets[n].challengeId);
      assert Differs(w1, targets[n]) <==> Starts(Images(w), targets, n);
      ReplaceStepUp(w, w1, targets, ds, id);
    }
  }

  lemma ReplaceStepUp(w: Fleet, w1: Fleet, targets: seq<Config>, ds: seq<Docker>, id: ChallengeId)
    requires w1.ok && |targets| == |ds| > 0 && FreshIds(w.challenges, ds)
    requires LoopUp(w, w1, targets[..|targets| - 1], ds[..|targets| - 1], id)
    requires Differs(w1, targets[|targets| - 1]) <==> Starts(Images(w), targets, |targets| - 1)
    requires Differs(w1, targets[|targets| - 1]) ==> Replace(w1, targets[|targets| - 1], ds[|targets| - 1]).ok
    ensures var c := targets[|targets| - 1];
            LoopUp(w, if Differs(w1, c) then Replace(w1, c, ds[|targets| - 1]) else w1, targets, ds, id)
  {
    var n := |targets| - 1;
    KeepsRunningStep(Images(w), targets, id, Up(w, id), NameOf(w.challenges, id));
    StillFresh(w.challenges, w1.challenges, ds);
    var w2 := if Differs(w1, targets[n]) then Replace(w1, targets[n], ds[n]) else w1;
    if Differs(w1, targets[n]) {
      ReplaceSeparate(w1, targets[n], ds[n]);
      ReplaceUp(w1, targets[n], ds[n], id);
    }
    GrownOneMore(w.challenges, w1.challenges, w2.challenges, ds);
  }

  lemma {:induction false} ReplaceAllSeparate(w: Fleet, targets: seq<Config>, ds: seq<Docker>)
    requires |targets| == |ds| && Separate(w.challenges) && FreshIds(w.challenges, ds)
    ensures Grown(w.challenges, ReplaceAll(w, targets, ds).challenges, ds)
  {
    if targets == [] {
    } else {
      var n := |targets| - 1;
      var w1 := ReplaceAll(w, targets[..n], ds[..n]);
      ReplaceAllSeparate(w, targets[..n], ds[..n]);
      StillFresh(w.challenges, w1.challenges, ds);
      ReplaceSeparate(w1, targets[n], ds[n]);
      GrownOneMore(w.challenges, w1.challenges, ReplaceAll(w, targets, ds).challenges, ds);
    }
  }

  /** With fresh ids, no sync, aborted or not, records one container for two challenges. */
  lemma SyncSeparate(w: Fleet, targets: seq<Config>, stale: seq<ChallengeId>, ds: seq<Docker>, ds': seq<Docker>)
    requires ValidOrders(w, targets, stale, ds, ds') && Separate(w.challenges) && FreshIds(w.challenges, ds')
    ensures Separate(Synced(w, targets, stale, ds, ds').challenges)
  {
    DropAllUp(w, stale, ds, 0);
    ReplaceAllSeparate(DropAll(w, stale, ds), targets, ds');
  }

  /**
   * After a successful sync the container of a target runs if and only if the sync started it, or it ran
   * before and was left alone, and no later start in the sync took its name.
   */
  lemma SyncRuns(w: Fleet, targets: seq<Config>, stale: seq<ChallengeId>, ds: seq<Docker>, ds': seq<Docker>,
        id: ChallengeId)
    requires w.ok && ValidOrders(w, targets, stale, ds, ds') && HasId(targets, id)
    requires Separate(w.challenges) && FreshIds(w.challenges, ds') && Synced(w, targets, stale, ds, ds').ok
    ensures Up(Synced(w, targets, stale, ds, ds'), id) <==>
            KeepsRunning(Images(w), targets, id, Up(w, id), NameOf(w.challenges, id))
  {
    var w1 := DropAll(w, stale, ds);
    HasIdIsMembership(targets, id);
    DropAllUp(w, stale, ds, id);
    ReplaceAllAt(w1, targets, ds', id);
    ReplaceAllUp(w1, targets, ds', id);
    forall j | 0 <= j < |targets| ensures ImageAgrees(Images(w), Images(w1), targets[j].challengeId) {
      IdAt(targets, j);
      HasIdIsMembership(targets, targets[j].challengeId);
      DropAllUp(w, stale, ds, targets[j].challengeId);
    }
    SameKeepsRunning(Images(w), Images(w1), targets, id, Up(w, id), NameOf(w.challenges, id));
  }

  // ---------------------------------------------------------------- repeating a sync

  predicate SomeDiffers(w: Fleet, targets: seq<Config>) {
    targets != [] && (Differs(w, targets[|targets| - 1]) || SomeDiffers(w, targets[..|targets| - 1]))
  }

  lemma {:induction false} IdleUntilDifferent(w: Fleet, targets: seq<Config>, ds: seq<Docker>)
    requires |targets| == |ds| && w.ok
    ensures var w' := ReplaceAll(w, targets, ds);
            if SomeDiffers(w, targets) then w'.calls > w.calls else w' == w
  {
    if targets == [] {
    } else {
      IdleUntilDifferent(w, targets[..|targets| - 1], ds[..|targets| - 1]);
    }
  }

  lemma {:induction false} DifferenceIsFound(w: Fleet, targets: seq<Config>)
    ensures SomeDiffers(w, targets) <==> exists i :: 0 <= i < |targets| && Differs(w, targets[i])
  {
    if targets == [] {
    } else {
      var init := targets[..|targets| - 1];
      DifferenceIsFound(w, init);
      assert forall i :: 0 <= i < |init| ==> init[i] == targets[i];
    }
  }

  /** With the targets recorded, a sync is silent if and only if no two targets disagree on an image. */
  lemma SilentAtTarget(w: Fleet, targets: seq<Config>, stale: seq<ChallengeId>, ds: seq<Docker>, ds': seq<Docker>)
    requires w.ok && RecordsTargets(w, targets) && ValidOrders(w, targets, stale, ds, ds')
    ensures var w' := Synced(w, targets, stale, ds, ds');
            && (w'.calls == w.calls <==> ImagesAgree(targets))
            && (ImagesAgree(targets) ==> w' == w)
  {
    if stale != [] {
      assert stale[0] in stale;
      assert RecordsImage(w, targets, stale[0]);
      HasIdIsMembership(targets, stale[0]);
    }
    IdleUntilDifferent(w, targets, ds');
    DifferenceIsFound(w, targets);
    if ImagesAgree(targets) {
      forall i | 0 <= i < |targets| ensures !Differs(w, targets[i]) {
        IdAt(targets, i);
        var k := LastPosition(targets, targets[i].challengeId);
        assert RecordsImage(w, targets, targets[i].challengeId);
      }
    } else {
      var i, j :| 0 <= i < j < |targets| && targets[i].challengeId == targets[j].challengeId &&
                  targets[i].dockerImage != targets[j].dockerImage;
      assert RecordsImage(w, targets, targets[i].challengeId);
      assert Differs(w, targets[i]) || Differs(w, targets[j]);
    }
  }

  /**
   * A sync to another image that fails after the stop leaves the old instance recorded and its container
   * stopped. Every later sync back to the recorded images succeeds without a Docker call and leaves it stopped.
   */
  lemma AbortedSyncStaysStopped(w: Fleet, c: Config, d: Docker, targets: seq<Config>, ds': seq<Docker>)
    requires w.ok && w.challenges.Keys == {c.challengeId} && Differs(w, c)
    requires d.stopOk && !(d.pullOk && d.startOk)
    requires |targets| == |ds'| && ImagesAgree(targets) && RecordsTargets(w, targets)
    ensures var w1 := Synced(w, [c], [], [], [d]);
            && !w1.ok && w1.challenges == w.challenges && !Up(w1, c.challengeId)
            && (var w2 := w1.(ok := true);
                Synced(w2, targets, [], [], ds') == w2 && !Up(w2, c.challengeId))
  {
    assert [c][..0] == [] && [d][..0] == [];
    var w1 := Replace(w, c, d);
    assert ReplaceAll(w, [], []) == w;
    var w2 := w1.(ok := true);
    forall id ensures RecordsImage(w2, targets, id) {
      assert RecordsImage(w, targets, id);
    }
    forall id ensures id in w2.challenges.Keys ==> id in Ids(targets) {
      assert RecordsImage(w, targets, id);
      HasIdIsMembership(targets, id);
    }
    assert w2.challenges.Keys - Ids(targets) == {};
    SilentAtTarget(w2, targets, [], [], ds');
  }

  /**
   * Two challenges whose names differ only in case and spaces: a sync that starts both succeeds, records
   * both and leaves the first one's container removed.
   */
  lemma NamesCollide(a: Config, b: Config, d: Docker, d': Docker)
    requires a.challengeId != b.challengeId && ContainerName(a) == ContainerName(b)
    requires d.pullOk && d.startOk && d'.pullOk && d'.startOk && d.containerId != d'.containerId
    ensures var w := Synced(Fleet(map[], map[], 0, true), [a, b], [], [], [d, d']);
            && w.ok && RecordsTargets(w, [a, b])
            && !Up(w, a.challengeId) && Up(w, b.challengeId)
  {
    var w0 := Fleet(map[], map[], 0, true);
    assert [a, b][..1] == [a] && [a][..0] == [] && [d, d'][..1] == [d] && [d][..0] == [];
    assert ReplaceAll(w0, [], []) == w0;
    var w1 := ReplaceAll(w0, [a], [d]);
    assert w1 == Replace(w0, a, d);
    assert ReplaceAll(w0, [a, b], [d, d']) == Replace(w1, b, d');
    assert w0.challenges.Keys - Ids([a, b]) == {};
    OkMeansAtTarget(w0, [a, b], [], [], [d, d']);
  }

  // ---------------------------------------------------------------- what is stopped

  /** A removal stops the challenge's container and no other, if it stops any. */
  lemma DropOutcome(w: Fleet, id: ChallengeId, d: Docker)
    requires id in w.challenges
    ensures var w', containerId := Drop(w, id, d), w.challenges[id].containerId;
            && (w'.ok <==> w.ok && d.stopOk && d.removeOk)
            && w'.challenges == w.challenges - {id}
            && (d.stopOk ==> Gone(w'.running, containerId))
            && StopsOnly(w.running, w'.running, if d.stopOk then {containerId} else {})
  {
  }

  lemma DropLeavesGone(w: Fleet, id: ChallengeId, d: Docker, containerId: string)
    requires Gone(w.running, containerId)
    ensures Gone(Drop(w, id, d).running, containerId)
  {
  }

  lemma {:induction false} DropAllStops(w: Fleet, ids: seq<ChallengeId>, ds: seq<Docker>, id: ChallengeId)
    requires |ids| == |ds| && Distinct(ids) && id in ids && id in w.challenges && DropAll(w, ids, ds).ok
    ensures Gone(DropAll(w, ids, ds).running, w.challenges[id].containerId)
  {
    var n := |ids| - 1;
    var w1 := DropAll(w, ids[..n], ds[..n]);
    DropAllAt(w, ids[..n], ds[..n], id);
    if id == ids[n] {
      assert id !in ids[..n];
      DropOutcome(w1, id, ds[n]);
    } else {
      DropAllStops(w, ids[..n], ds[..n], id);
      DropLeavesGone(w1, ids[n], ds[n], w.challenges[id].containerId);
    }
  }

  lemma {:induction false} ReplaceAllLeavesGone(w: Fleet, targets: seq<Config>, ds: seq<Docker>, containerId: string)
    requires |targets| == |ds| && Gone(w.running, containerId)
    requires forall i :: 0 <= i < |ds| ==> ds[i].containerId != containerId
    ensures Gone(ReplaceAll(w, targets, ds).running, containerId)
  {
    if targets == [] {
    } else {
      ReplaceAllLeavesGone(w, targets[..|targets| - 1], ds[..|targets| - 1], containerId);
    }
  }

  /** After a successful sync the container of every challenge that is no target any more is stopped. */
  lemma SyncStops(w: Fleet, targets: seq<Config>, stale: seq<ChallengeId>, ds: seq<Docker>, ds': seq<Docker>,
        id: ChallengeId)
    requires ValidOrders(w, targets, stale, ds, ds') && FreshIds(w.challenges, ds')
    requires Synced(w, targets, stale, ds, ds').ok && id in w.challenges && !HasId(targets, id)
    ensures Gone(Synced(w, targets, stale, ds, ds').running, w.challenges[id].containerId)
  {
    HasIdIsMembership(targets, id);
    ReplaceAllAt(DropAll(w, stale, ds), targets, ds', id);
    DropAllStops(w, stale, ds, id);
    assert w.challenges[id].containerId in ContainerIds(w.challenges);
    ReplaceAllLeavesGone(DropAll(w, stale, ds), targets, ds', w.challenges[id].containerId);
  }
}
