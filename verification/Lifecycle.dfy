/**
 * Container lifecycle management: live instances and the configurations they were started from,
 * kept in step by operations whose Docker calls may each fail.
 */
module Lifecycle {
  import opened Base

  type ChallengeId = nat

  /** `settings` stands for every field of the configuration other than the name and the image. */
  datatype Config = Config(challengeId: ChallengeId, name: string, dockerImage: string, settings: string)

  datatype Status = Starting | Running | Unhealthy | Stopped

  /** `containerName` is the host of the instance's endpoint. */
  datatype Instance = Instance(challengeId: ChallengeId, containerId: string, image: string, containerName: string,
                               status: Status)

  /**
   * How the Docker calls of one operation turn out, and the id of a container it starts. `cleared` says
   * whether a start that fails had already removed the container of its name.
   */
  datatype Docker = Docker(stopOk: bool, removeOk: bool, pullOk: bool, startOk: bool, cleared: bool, containerId: string)

  /** Docker's own state: the running containers, by name. */
  type Containers = map<string, string>

  /** `calls` counts the Docker calls made so far. */
  datatype Manager = Manager(challenges: map<ChallengeId, Instance>, configs: map<ChallengeId, Config>,
                             running: Containers, calls: nat)

  const EMPTY := Manager(map[], map[], map[], 0)

  function Plain(c: char): char {
    if 'A' <= c <= 'Z' then c - 'A' + 'a' else if c == ' ' then '-' else c
  }

  function Normal(name: string): string {
    if name == [] then [] else Normal(name[..|name| - 1]) + [Plain(name[|name| - 1])]
  }

  /** The part of the container's name that tells the containers of one validator apart. */
  function ContainerName(c: Config): string {
    Normal(c.name)
  }

  /** Stopping and removing both go by container id. */
  function Without(running: Containers, containerId: string): Containers {
    map n | n in running && running[n] != containerId :: running[n]
  }

  function Started(c: Config, d: Docker): Instance {
    Instance(c.challengeId, d.containerId, c.dockerImage, ContainerName(c), Starting)
  }

  // ---------------------------------------------------------------- single operations

  /** A start first removes whatever container has its name. */
  function Pulling(w: Manager, c: Config, d: Docker): (r: (Manager, bool)) {
    if !d.pullOk then (w.(calls := w.calls + 1), false)
    else if !d.startOk then
      (w.(running := if d.cleared then w.running - {ContainerName(c)} else w.running, calls := w.calls + 2), false)
    else
      (Manager(w.challenges[c.challengeId := Started(c, d)], w.configs[c.challengeId := c],
               w.running[ContainerName(c) := d.containerId], w.calls + 2), true)
  }

  function Adding(w: Manager, c: Config, d: Docker): (Manager, bool) {
    Pulling(w, c, d)
  }

  /** Stops and removes the old container first; on any error both maps are left as they were. */
  function Updating(w: Manager, c: Config, d: Docker): (Manager, bool) {
    if c.challengeId !in w.challenges then Pulling(w, c, d)
    else if !d.stopOk then (w.(calls := w.calls + 1), false)
    else
      var w1 := w.(running := Without(w.running, w.challenges[c.challengeId].containerId), calls := w.calls + 2);
      if !d.removeOk then (w1, false) else Pulling(w1, c, d)
  }

  /** Forgets the instance before the Docker calls; the configuration only after they succeed. */
  function Removing(w: Manager, id: ChallengeId, d: Docker): (Manager, bool) {
    var w1 := w.(challenges := w.challenges - {id});
    if id !in w.challenges then (w1.(configs := w.configs - {id}), true)
    else if !d.stopOk then (w1.(calls := w.calls + 1), false)
    else
      var w2 := w1.(running := Without(w.running, w.challenges[id].containerId), calls := w.calls + 2);
      if !d.removeOk then (w2, false) else (w2.(configs := w.configs - {id}), true)
  }

  function Restarting(w: Manager, id: ChallengeId, d: Docker): (Manager, bool) {
    if id in w.configs then Updating(w, w.configs[id], d) else (w, false)
  }

  /** The health monitor shares the instance map and edits statuses. */
  function SetStatus(w: Manager, id: ChallengeId, status: Status): Manager {
    if id in w.challenges then w.(challenges := w.challenges[id := w.challenges[id].(status := status)]) else w
  }

  // ---------------------------------------------------------------- loops over operations

  function RestartEach(w: Manager, ids: seq<ChallengeId>, ds: seq<Docker>): Manager
    requires |ids| == |ds|
  {
    if ids == [] then w
    else Restarting(RestartEach(w, ids[..|ids| - 1], ds[..|ids| - 1]), ids[|ids| - 1], ds[|ids| - 1]).0
  }

  /** The outcome reported for each id. */
  function RestartResults(w: Manager, ids: seq<ChallengeId>, ds: seq<Docker>): seq<(ChallengeId, bool)>
    requires |ids| == |ds|
  {
    if ids == [] then []
    else
      var init, ds', id := ids[..|ids| - 1], ds[..|ids| - 1], ids[|ids| - 1];
      RestartResults(w, init, ds') + [(id, Restarting(RestartEach(w, init, ds'), id, ds[|ids| - 1]).1)]
  }

  function RemoveEach(w: Manager, ids: seq<ChallengeId>, ds: seq<Docker>): Manager
    requires |ids| == |ds|
  {
    if ids == [] then w
    else Removing(RemoveEach(w, ids[..|ids| - 1], ds[..|ids| - 1]), ids[|ids| - 1], ds[|ids| - 1]).0
  }

  function RemoveResults(w: Manager, ids: seq<ChallengeId>, ds: seq<Docker>): seq<(ChallengeId, bool)>
    requires |ids| == |ds|
  {
    if ids == [] then []
    else
      var init, ds', id := ids[..|ids| - 1], ds[..|ids| - 1], ids[|ids| - 1];
      RemoveResults(w, init, ds') + [(id, Removing(RemoveEach(w, init, ds'), id, ds[|ids| - 1]).1)]
  }

  datatype SyncResult = SyncResult(added: seq<ChallengeId>, updated: seq<ChallengeId>, removed: seq<ChallengeId>,
                                   untouched: seq<ChallengeId>, errors: seq<ChallengeId>)
  {
    /** Every id listed, as often as it is listed. */
    function Listed(): multiset<ChallengeId> {
      multiset(added) + multiset(updated) + multiset(removed) + multiset(untouched) + multiset(errors)
    }
    function Times(id: ChallengeId): nat {
      multiset(added)[id] + multiset(updated)[id] + multiset(removed)[id] + multiset(untouched)[id] + multiset(errors)[id]
    }
  }

  const NO_CHANGES := SyncResult([], [], [], [], [])

  /** A manager in the middle of a sync, with the result so far. */
  datatype Progress = Progress(w: Manager, result: SyncResult)

  function RemoveStep(p: Progress, id: ChallengeId, d: Docker): Progress {
    var (w, ok) := Removing(p.w, id, d);
    Progress(w, if ok then p.result.(removed := p.result.removed + [id])
                else p.result.(errors := p.result.errors + [id]))
  }

  predicate NeedsUpdate(w: Manager, c: Config) {
    c.challengeId in w.configs ==> w.configs[c.challengeId].dockerImage != c.dockerImage
  }

  function TargetStep(p: Progress, current: set<ChallengeId>, c: Config, d: Docker): Progress {
    var id := c.challengeId;
    if !NeedsUpdate(p.w, c) then p.(result := p.result.(untouched := p.result.untouched + [id]))
    else
      var (w, ok) := Updating(p.w, c, d);
      Progress(w, if !ok then p.result.(errors := p.result.errors + [id])
                  else if id !in current then p.result.(added := p.result.added + [id])
                  else p.result.(updated := p.result.updated + [id]))
  }

  function RemovePhase(p: Progress, ids: seq<ChallengeId>, ds: seq<Docker>): Progress
    requires |ids| == |ds|
  {
    if ids == [] then p
    else RemoveStep(RemovePhase(p, ids[..|ids| - 1], ds[..|ids| - 1]), ids[|ids| - 1], ds[|ids| - 1])
  }

  function TargetPhase(p: Progress, current: set<ChallengeId>, targets: seq<Config>, ds: seq<Docker>): Progress
    requires |targets| == |ds|
  {
    if targets == [] then p
    else
      TargetStep(TargetPhase(p, current, targets[..|targets| - 1], ds[..|targets| - 1]), current,
                 targets[|targets| - 1], ds[|targets| - 1])
  }

  function Ids(targets: seq<Config>): set<ChallengeId> {
    set c | c in targets :: c.challengeId
  }

  function Syncing(w: Manager, targets: seq<Config>, stale: seq<ChallengeId>, ds: seq<Docker>,
        ds': seq<Docker>): Progress
    requires |stale| == |ds| && |targets| == |ds'|
  {
    TargetPhase(RemovePhase(Progress(w, NO_CHANGES), stale, ds), w.configs.Keys, targets, ds')
  }

  /** The orders and Docker outcomes a sync may meet. */
  predicate ValidSync(w: Manager, targets: seq<Config>, stale: seq<ChallengeId>, ds: seq<Docker>, ds': seq<Docker>) {
    Enumerates(stale, w.configs.Keys - Ids(targets)) && |stale| == |ds| && |targets| == |ds'|
  }

  // ---------------------------------------------------------------- the implementation

  class LifecycleManager {
    var challenges: map<ChallengeId, Instance>
    var configs: map<ChallengeId, Config>
    var running: Containers
    var calls: nat

    ghost function Value(): Manager
      reads this
    {
      Manager(challenges, configs, running, calls)
    }

    constructor ()
      ensures Value() == EMPTY
    {
      challenges, configs, running, calls := map[], map[], map[], 0;
    }

    method PullAndStart(c: Config, d: Docker) returns (ok: bool)
      modifies this
      ensures (Value(), ok) == Pulling(old(Value()), c, d)
    {
      calls := calls + 1;
      if !d.pullOk {
        return false;
      }
      calls := calls + 1;
      if !d.startOk {
        if d.cleared {
          running := running - {ContainerName(c)};
        }
        return false;
      }
      running := running[ContainerName(c) := d.containerId];
      configs := configs[c.challengeId := c];
      challenges := challenges[c.challengeId := Started(c, d)];
      ok := true;
    }

    method Add(c: Config, d: Docker) returns (ok: bool)
      modifies this
      ensures (Value(), ok) == Adding(old(Value()), c, d)
    {
      ok := PullAndStart(c, d);
    }

    method Update(c: Config, d: Docker) returns (ok: bool)
      modifies this
      ensures (Value(), ok) == Updating(old(Value()), c, d)
    {
      if c.challengeId in challenges {
        calls := calls + 1;
        if !d.stopOk {
          return false;
        }
        running := Without(running, challenges[c.challengeId].containerId);
        calls := calls + 1;
        if !d.removeOk {
          return false;
        }
      }
      ok := PullAndStart(c, d);
    }

    method Remove(id: ChallengeId, d: Docker) returns (ok: bool)
      modifies this
      ensures (Value(), ok) == Removing(old(Value()), id, d)
    {
      var instance := if id in challenges then Some(challenges[id]) else None;
      challenges := challenges - {id};
      if instance.Some? {
        calls := calls + 1;
        if !d.stopOk {
          return false;
        }
        running := Without(running, instance.value.containerId);
        calls := calls + 1;
        if !d.removeOk {
          return false;
        }
      }
      configs := configs - {id};
      ok := true;
    }

    method Restart(id: ChallengeId, d: Docker) returns (ok: bool)
      modifies this
      ensures (Value(), ok) == Restarting(old(Value()), id, d)
    {
      if id !in configs {
        return false;
      }
      ok := Update(configs[id], d);
    }

    method RestartUnhealthy(ids: seq<ChallengeId>, ds: seq<Docker>) returns (results: seq<(ChallengeId, bool)>)
      requires Enumerates(ids, set id | id in challenges && challenges[id].status == Unhealthy) && |ids| == |ds|
      modifies this
      ensures Value() == RestartEach(old(Value()), ids, ds)
      ensures results == RestartResults(old(Value()), ids, ds)
    {
      results := [];
      for i := 0 to |ids|
        invariant Value() == RestartEach(old(Value()), ids[..i], ds[..i])
        invariant results == RestartResults(old(Value()), ids[..i], ds[..i])
      {
        SplitLast(ids, i);
        assert ds[..i + 1][..i] == ds[..i];
        var ok := Restart(ids[i], ds[i]);
        results := results + [(ids[i], ok)];
      }
      assert ids[..|ids|] == ids && ds[..|ds|] == ds;
    }

    method StopAll(ids: seq<ChallengeId>, ds: seq<Docker>) returns (results: seq<(ChallengeId, bool)>)
      requires Enumerates(ids, challenges.Keys) && |ids| == |ds|
      modifies this
      ensures Value() == RemoveEach(old(Value()), ids, ds)
      ensures results == RemoveResults(old(Value()), ids, ds)
    {
      results := [];
      for i := 0 to |ids|
        invariant Value() == RemoveEach(old(Value()), ids[..i], ds[..i])
        invariant results == RemoveResults(old(Value()), ids[..i], ds[..i])
      {
        SplitLast(ids, i);
        assert ds[..i + 1][..i] == ds[..i];
        var ok := Remove(ids[i], ds[i]);
        results := results + [(ids[i], ok)];
      }
      assert ids[..|ids|] == ids && ds[..|ds|] == ds;
    }

    method RemoveStale(stale: seq<ChallengeId>, ds: seq<Docker>, before: SyncResult) returns (result: SyncResult)
      requires |stale| == |ds|
      modifies this
      ensures Progress(Value(), result) == RemovePhase(Progress(old(Value()), before), stale, ds)
    {
      result := before;
      for i := 0 to |stale|
        invariant Progress(Value(), result) == RemovePhase(Progress(old(Value()), before), stale[..i], ds[..i])
      {
        SplitLast(stale, i);
        assert ds[..i + 1][..i] == ds[..i];
        var ok := Remove(stale[i], ds[i]);
        if ok {
          result := result.(removed := result.removed + [stale[i]]);
        } else {
          result := result.(errors := result.errors + [stale[i]]);
        }
      }
      assert stale[..|stale|] == stale && ds[..|ds|] == ds;
    }

    method ApplyTargets(current: set<ChallengeId>, targets: seq<Config>, ds: seq<Docker>, before: SyncResult)
      returns (result: SyncResult)
      requires |targets| == |ds|
      modifies this
      ensures Progress(Value(), result) == TargetPhase(Progress(old(Value()), before), current, targets, ds)
    {
      result := before;
      for i := 0 to |targets|
        invariant Progress(Value(), result) == TargetPhase(Progress(old(Value()), before), current, targets[..i], ds[..i])
      {
        SplitLast(targets, i);
        assert ds[..i + 1][..i] == ds[..i];
        var id := targets[i].challengeId;
        if id !in configs || configs[id].dockerImage != targets[i].dockerImage {
          var ok := Update(targets[i], ds[i]);
          if !ok {
            result := result.(errors := result.errors + [id]);
          } else if id !in current {
            result := result.(added := result.added + [id]);
          } else {
            result := result.(updated := result.updated + [id]);
          }
        } else {
          result := result.(untouched := result.untouched + [id]);
        }
      }
      assert targets[..|targets|] == targets && ds[..|ds|] == ds;
    }

    method Sync(targets: seq<Config>, stale: seq<ChallengeId>, ds: seq<Docker>,
          ds': seq<Docker>) returns (result: SyncResult)
      requires ValidSync(Value(), targets, stale, ds, ds')
      modifies this
      ensures Progress(Value(), result) == Syncing(old(Value()), targets, stale, ds, ds')
    {
      var current := configs.Keys;
      result := RemoveStale(stale, ds, NO_CHANGES);
      result := ApplyTargets(current, targets, ds', result);
    }
  }

  // ---------------------------------------------------------------- every run keeps instances and configurations in step

  datatype Op =
    | DoAdd(c: Config, d: Docker)
    | DoUpdate(c: Config, d: Docker)
    | DoRemove(id: ChallengeId, d: Docker)
    | DoRestart(id: ChallengeId, d: Docker)
    | DoRestartUnhealthy(ids: seq<ChallengeId>, ds: seq<Docker>)
    | DoStopAll(ids: seq<ChallengeId>, ds: seq<Docker>)
    | DoSync(targets: seq<Config>, stale: seq<ChallengeId>, ds: seq<Docker>, ds': seq<Docker>)
    | HealthReport(id: ChallengeId, status: Status)

  predicate ValidOp(w: Manager, op: Op) {
    match op
    case DoRestartUnhealthy(ids, ds) =>
      Enumerates(ids, set id | id in w.challenges && w.challenges[id].status == Unhealthy) && |ids| == |ds|
    case DoStopAll(ids, ds) => Enumerates(ids, w.challenges.Keys) && |ids| == |ds|
    case DoSync(targets, stale, ds, ds') => ValidSync(w, targets, stale, ds, ds')
    case _ => true
  }

  function Exec(w: Manager, op: Op): Manager
    requires ValidOp(w, op)
  {
    match op
    case DoAdd(c, d) => Adding(w, c, d).0
    case DoUpdate(c, d) => Updating(w, c, d).0
    case DoRemove(id, d) => Removing(w, id, d).0
    case DoRestart(id, d) => Restarting(w, id, d).0
    case DoRestartUnhealthy(ids, ds) => RestartEach(w, ids, ds)
    case DoStopAll(ids, ds) => RemoveEach(w, ids, ds)
    case DoSync(targets, stale, ds, ds') => Syncing(w, targets, stale, ds, ds').w
    case HealthReport(id, status) => SetStatus(w, id, status)
  }

  predicate ValidRun(w: Manager, ops: seq<Op>)
    decreases |ops|
  {
    ops == [] || (ValidOp(w, ops[0]) && ValidRun(Exec(w, ops[0]), ops[1..]))
  }

  function Run(w: Manager, ops: seq<Op>): Manager
    requires ValidRun(w, ops)
    decreases |ops|
  {
    if ops == [] then w else Run(Exec(w, ops[0]), ops[1..])
  }

  ghost predicate InStep(w: Manager) {
    forall id :: id in w.challenges ==> id in w.configs && w.challenges[id].image == w.configs[id].dockerImage
  }

  lemma PullingKeeps(w: Manager, c: Config, d: Docker)
    requires InStep(w)
    ensures InStep(Pulling(w, c, d).0)
  {
  }

  lemma UpdatingKeeps(w: Manager, c: Config, d: Docker)
    requires InStep(w)
    ensures InStep(Updating(w, c, d).0)
  {
    if c.challengeId in w.challenges {
      PullingKeeps(w.(running := Without(w.running, w.challenges[c.challengeId].containerId), calls := w.calls + 2), c, d);
    } else {
      PullingKeeps(w, c, d);
    }
  }

  lemma RemovingKeeps(w: Manager, id: ChallengeId, d: Docker)
    requires InStep(w)
    ensures InStep(Removing(w, id, d).0)
  {
  }

  lemma RestartingKeeps(w: Manager, id: ChallengeId, d: Docker)
    requires InStep(w)
    ensures InStep(Restarting(w, id, d).0)
  {
    if id in w.configs {
      UpdatingKeeps(w, w.configs[id], d);
    }
  }

  lemma {:induction false} RestartEachKeeps(w: Manager, ids: seq<ChallengeId>, ds: seq<Docker>)
    requires InStep(w) && |ids| == |ds|
    ensures InStep(RestartEach(w, ids, ds))
  {
    if ids == [] {
    } else {
      var w1 := RestartEach(w, ids[..|ids| - 1], ds[..|ids| - 1]);
      RestartEachKeeps(w, ids[..|ids| - 1], ds[..|ids| - 1]);
      RestartingKeeps(w1, ids[|ids| - 1], ds[|ids| - 1]);
    }
  }

  lemma {:induction false} RemoveEachKeeps(w: Manager, ids: seq<ChallengeId>, ds: seq<Docker>)
    requires InStep(w) && |ids| == |ds|
    ensures InStep(RemoveEach(w, ids, ds))
  {
    if ids == [] {
    } else {
      var w1 := RemoveEach(w, ids[..|ids| - 1], ds[..|ids| - 1]);
      RemoveEachKeeps(w, ids[..|ids| - 1], ds[..|ids| - 1]);
      RemovingKeeps(w1, ids[|ids| - 1], ds[|ids| - 1]);
    }
  }

  lemma {:induction false} RemovePhaseKeeps(p: Progress, ids: seq<ChallengeId>, ds: seq<Docker>)
    requires InStep(p.w) && |ids| == |ds|
    ensures InStep(RemovePhase(p, ids, ds).w)
  {
    if ids == [] {
    } else {
      var p1 := RemovePhase(p, ids[..|ids| - 1], ds[..|ids| - 1]);
      RemovePhaseKeeps(p, ids[..|ids| - 1], ds[..|ids| - 1]);
      RemovingKeeps(p1.w, ids[|ids| - 1], ds[|ids| - 1]);
    }
  }

  lemma {:induction false} TargetPhaseKeeps(p: Progress, current: set<ChallengeId>, targets: seq<Config>,
        ds: seq<Docker>)
    requires InStep(p.w) && |targets| == |ds|
    ensures InStep(TargetPhase(p, current, targets, ds).w)
  {
    if targets == [] {
    } else {
      var p1 := TargetPhase(p, current, targets[..|targets| - 1], ds[..|targets| - 1]);
      TargetPhaseKeeps(p, current, targets[..|targets| - 1], ds[..|targets| - 1]);
      UpdatingKeeps(p1.w, targets[|targets| - 1], ds[|targets| - 1]);
    }
  }

  lemma ExecKeeps(w: Manager, op: Op)
    requires InStep(w) && ValidOp(w, op)
    ensures InStep(Exec(w, op))
  {
    match op
    case DoAdd(c, d) => PullingKeeps(w, c, d);
    case DoUpdate(c, d) => UpdatingKeeps(w, c, d);
    case DoRemove(id, d) => RemovingKeeps(w, id, d);
    case DoRestart(id, d) => RestartingKeeps(w, id, d);
    case DoRestartUnhealthy(ids, ds) => RestartEachKeeps(w, ids, ds);
    case DoStopAll(ids, ds) => RemoveEachKeeps(w, ids, ds);
    case DoSync(targets, stale, ds, ds') =>
      var p := Progress(w, NO_CHANGES);
      RemovePhaseKeeps(p, stale, ds);
      TargetPhaseKeeps(RemovePhase(p, stale, ds), w.configs.Keys, targets, ds');
    case HealthReport(id, status) =>
  }

  /**
   * From empty maps, over every run with arbitrary Docker failures: every live instance has a
   * configuration and runs that configuration's image.
   */
  lemma {:induction false} RunKeeps(w: Manager, ops: seq<Op>)
    requires InStep(w) && ValidRun(w, ops)
    ensures InStep(Run(w, ops))
    decreases |ops|
  {
    if ops == [] {
    } else {
      ExecKeeps(w, ops[0]);
      RunKeeps(Exec(w, ops[0]), ops[1..]);
    }
  }

  lemma EveryRun(ops: seq<Op>)
    requires ValidRun(EMPTY, ops)
    ensures var w := Run(EMPTY, ops);
            && w.challenges.Keys <= w.configs.Keys
            && forall id :: id in w.challenges ==> w.challenges[id].image == w.configs[id].dockerImage
  {
    RunKeeps(EMPTY, ops);
  }

  // ---------------------------------------------------------------- sync accounts for everything

  function IdList(targets: seq<Config>): seq<ChallengeId> {
    if targets == [] then [] else IdList(targets[..|targets| - 1]) + [targets[|targets| - 1].challengeId]
  }

  lemma OneMore(ids: seq<ChallengeId>, last: ChallengeId, id: ChallengeId)
    ensures multiset(ids + [last])[id] == multiset(ids)[id] + if last == id then 1 else 0
  {
  }

  lemma RemoveStepListed(p: Progress, last: ChallengeId, d: Docker, id: ChallengeId)
    ensures RemoveStep(p, last, d).result.Times(id) == p.result.Times(id) + if last == id then 1 else 0
  {
    OneMore(p.result.removed, last, id);
    OneMore(p.result.errors, last, id);
  }

  lemma TargetStepListed(p: Progress, current: set<ChallengeId>, c: Config, d: Docker, id: ChallengeId)
    ensures TargetStep(p, current, c, d).result.Times(id) == p.result.Times(id) + if c.challengeId == id then 1 else 0
  {
    OneMore(p.result.added, c.challengeId, id);
    OneMore(p.result.updated, c.challengeId, id);
    OneMore(p.result.untouched, c.challengeId, id);
    OneMore(p.result.errors, c.challengeId, id);
  }

  lemma {:induction false} RemovePhaseListed(p: Progress, ids: seq<ChallengeId>, ds: seq<Docker>, id: ChallengeId)
    requires |ids| == |ds|
    ensures RemovePhase(p, ids, ds).result.Times(id) == p.result.Times(id) + multiset(ids)[id]
  {
    if ids == [] {
    } else {
      var n := |ids| - 1;
      RemovePhaseListed(p, ids[..n], ds[..n], id);
      RemoveStepListed(RemovePhase(p, ids[..n], ds[..n]), ids[n], ds[n], id);
      LastCounted(ids, id);
    }
  }

  lemma LastCounted(ids: seq<ChallengeId>, id: ChallengeId)
    requires ids != []
    ensures multiset(ids)[id] == multiset(ids[..|ids| - 1])[id] + if ids[|ids| - 1] == id then 1 else 0
  {
    assert ids == ids[..|ids| - 1] + [ids[|ids| - 1]];
  }

  lemma {:induction false} TargetPhaseListed(p: Progress, current: set<ChallengeId>, targets: seq<Config>,
        ds: seq<Docker>, id: ChallengeId)
    requires |targets| == |ds|
    ensures TargetPhase(p, current, targets, ds).result.Times(id) == p.result.Times(id) + multiset(IdList(targets))[id]
  {
    if targets == [] {
    } else {
      var n := |targets| - 1;
      TargetPhaseListed(p, current, targets[..n], ds[..n], id);
      TargetStepListed(TargetPhase(p, current, targets[..n], ds[..n]), current, targets[n], ds[n], id);
      OneMore(IdList(targets[..n]), targets[n].challengeId, id);
    }
  }

  lemma SameMultiset(a: multiset<ChallengeId>, b: multiset<ChallengeId>)
    requires forall id :: a[id] == b[id]
    ensures a == b
  {
  }

  /**
   * Under any failures the five lists together hold every target id, as often as it is a target, and
   * every stale id once, and nothing else.
   */
  lemma SyncAccounts(w: Manager, targets: seq<Config>, stale: seq<ChallengeId>, ds: seq<Docker>, ds': seq<Docker>)
    requires ValidSync(w, targets, stale, ds, ds')
    ensures Syncing(w, targets, stale, ds, ds').result.Listed()
            == multiset(IdList(targets)) + multiset(w.configs.Keys - Ids(targets))
  {
    var p := Progress(w, NO_CHANGES);
    var result := Syncing(w, targets, stale, ds, ds').result;
    EnumerationMultiset(stale, w.configs.Keys - Ids(targets));
    forall id ensures result.Listed()[id] == (multiset(IdList(targets)) + multiset(stale))[id] {
      RemovePhaseListed(p, stale, ds, id);
      TargetPhaseListed(RemovePhase(p, stale, ds), w.configs.Keys, targets, ds', id);
    }
    SameMultiset(result.Listed(), multiset(IdList(targets)) + multiset(stale));
  }

  // ---------------------------------------------------------------- an error-free sync reaches the target

  predicate HasId(targets: seq<Config>, id: ChallengeId) {
    targets != [] && (targets[|targets| - 1].challengeId == id || HasId(targets[..|targets| - 1], id))
  }

  /** The image of the last target with this id. */
  function LastImage(targets: seq<Config>, id: ChallengeId): string
    requires HasId(targets, id)
  {
    if targets[|targets| - 1].challengeId == id then targets[|targets| - 1].dockerImage
    else LastImage(targets[..|targets| - 1], id)
  }

  lemma {:induction false} HasIdIsMembership(targets: seq<Config>, id: ChallengeId)
    ensures HasId(targets, id) <==> id in Ids(targets)
  {
    if targets == [] {
    } else {
      var init, last := targets[..|targets| - 1], targets[|targets| - 1];
      HasIdIsMembership(init, id);
      assert forall c :: c in targets <==> c in init || c == last;
    }
  }

  ghost predicate SameAt(w: Manager, w': Manager, id: ChallengeId) {
    && (id in w.configs <==> id in w'.configs) && (id in w.configs ==> w.configs[id] == w'.configs[id])
    && (id in w.challenges <==> id in w'.challenges) && (id in w.challenges ==> w.challenges[id] == w'.challenges[id])
  }

  lemma RemovingAt(w: Manager, last: ChallengeId, d: Docker, id: ChallengeId)
    ensures var (w', ok) := Removing(w, last, d);
            && (id != last ==> SameAt(w, w', id))
            && (ok ==> last !in w'.configs) && (id !in w.configs ==> id !in w'.configs)
  {
  }

  lemma {:induction false} RemovePhaseAt(p: Progress, ids: seq<ChallengeId>, ds: seq<Docker>, id: ChallengeId)
    requires |ids| == |ds|
    ensures var q := RemovePhase(p, ids, ds);
            && |p.result.errors| <= |q.result.errors|
            && (id !in ids ==> SameAt(p.w, q.w, id))
            && (id in ids && |q.result.errors| == |p.result.errors| ==> id !in q.w.configs)
  {
    if ids == [] {
    } else {
      var n := |ids| - 1;
      RemovePhaseAt(p, ids[..n], ds[..n], id);
      RemovingAt(RemovePhase(p, ids[..n], ds[..n]).w, ids[n], ds[n], id);
      assert id in ids <==> id in ids[..n] || id == ids[n];
    }
  }

  ghost predicate PhaseAt(p: Progress, q: Progress, targets: seq<Config>, id: ChallengeId) {
    && |p.result.errors| <= |q.result.errors|
    && (!HasId(targets, id) ==> SameAt(p.w, q.w, id))
    && (HasId(targets, id) && |q.result.errors| == |p.result.errors| ==>
          id in q.w.configs && q.w.configs[id].dockerImage == LastImage(targets, id))
  }

  lemma UpdatingAt(w: Manager, c: Config, d: Docker, id: ChallengeId)
    ensures var (w', ok) := Updating(w, c, d);
            && (id != c.challengeId ==> SameAt(w, w', id))
            && (ok ==> c.challengeId in w'.configs && w'.configs[c.challengeId] == c)
  {
  }

  lemma TargetStepAt(p: Progress, q: Progress, current: set<ChallengeId>, targets: seq<Config>, d: Docker,
        id: ChallengeId)
    requires targets != [] && PhaseAt(p, q, targets[..|targets| - 1], id)
    ensures PhaseAt(p, TargetStep(q, current, targets[|targets| - 1], d), targets, id)
  {
    UpdatingAt(q.w, targets[|targets| - 1], d, id);
  }

  lemma {:induction false} TargetPhaseAt(p: Progress, current: set<ChallengeId>, targets: seq<Config>,
        ds: seq<Docker>, id: ChallengeId)
    requires |targets| == |ds|
    ensures PhaseAt(p, TargetPhase(p, current, targets, ds), targets, id)
  {
    if targets == [] {
    } else {
      var n := |targets| - 1;
      TargetPhaseAt(p, current, targets[..n], ds[..n], id);
      TargetStepAt(p, TargetPhase(p, current, targets[..n], ds[..n]), current, targets, ds[n], id);
    }
  }

  /** After an error-free sync the configured challenges are the targets, with the images last asked for. */
  lemma SyncReachesTarget(w: Manager, targets: seq<Config>, stale: seq<ChallengeId>, ds: seq<Docker>, ds': seq<Docker>)
    requires ValidSync(w, targets, stale, ds, ds')
    requires Syncing(w, targets, stale, ds, ds').result.errors == []
    ensures AtTarget(Syncing(w, targets, stale, ds, ds').w, targets)
  {
    var p := Progress(w, NO_CHANGES);
    var p1 := RemovePhase(p, stale, ds);
    forall id ensures AtTargetFor(Syncing(w, targets, stale, ds, ds').w, targets, id) {
      RemovePhaseAt(p, stale, ds, id);
      TargetPhaseAt(p1, w.configs.Keys, targets, ds', id);
      HasIdIsMembership(targets, id);
    }
  }

  ghost predicate AtTargetFor(w: Manager, targets: seq<Config>, id: ChallengeId) {
    && (id in w.configs <==> HasId(targets, id))
    && (HasId(targets, id) ==> w.configs[id].dockerImage == LastImage(targets, id))
  }

  ghost predicate AtTarget(w: Manager, targets: seq<Config>) {
    forall id :: AtTargetFor(w, targets, id)
  }

  // ---------------------------------------------------------------- repeating a sync

  /** No two targets ask for different images under one id. */
  ghost predicate ImagesAgree(targets: seq<Config>) {
    forall i, j :: 0 <= i < j < |targets| && targets[i].challengeId == targets[j].challengeId ==>
                     targets[i].dockerImage == targets[j].dockerImage
  }

  lemma {:induction false} IdAt(targets: seq<Config>, i: nat)
    requires i < |targets|
    ensures HasId(targets, targets[i].challengeId)
  {
    if i < |targets| - 1 {
      IdAt(targets[..|targets| - 1], i);
    }
  }

  lemma {:induction false} LastPosition(targets: seq<Config>, id: ChallengeId) returns (k: nat)
    requires HasId(targets, id)
    ensures k < |targets| && targets[k].challengeId == id && targets[k].dockerImage == LastImage(targets, id)
    ensures forall j :: k < j < |targets| ==> targets[j].challengeId != id
  {
    if targets[|targets| - 1].challengeId == id {
      k := |targets| - 1;
    } else {
      k := LastPosition(targets[..|targets| - 1], id);
    }
  }

  predicate SomeNeedsUpdate(w: Manager, targets: seq<Config>) {
    targets != [] && (NeedsUpdate(w, targets[|targets| - 1]) || SomeNeedsUpdate(w, targets[..|targets| - 1]))
  }

  lemma {:induction false} NeedIsFound(w: Manager, targets: seq<Config>)
    ensures SomeNeedsUpdate(w, targets) <==> exists i :: 0 <= i < |targets| && NeedsUpdate(w, targets[i])
  {
    if targets == [] {
    } else {
      var init := targets[..|targets| - 1];
      NeedIsFound(w, init);
      assert forall i :: 0 <= i < |init| ==> init[i] == targets[i];
    }
  }

  lemma {:induction false} IdleUntilNeeded(p: Progress, current: set<ChallengeId>, targets: seq<Config>,
        ds: seq<Docker>)
    requires |targets| == |ds|
    ensures var w := TargetPhase(p, current, targets, ds).w;
            if SomeNeedsUpdate(p.w, targets) then w.calls > p.w.calls else w == p.w
  {
    if targets == [] {
    } else {
      IdleUntilNeeded(p, current, targets[..|targets| - 1], ds[..|targets| - 1]);
    }
  }

  /** At the target, a sync makes no Docker call and changes nothing, unless two targets disagree on an image. */
  lemma SyncIdleAtTarget(w: Manager, targets: seq<Config>, stale: seq<ChallengeId>, ds: seq<Docker>, ds': seq<Docker>)
    requires AtTarget(w, targets) && ValidSync(w, targets, stale, ds, ds')
    ensures var w' := Syncing(w, targets, stale, ds, ds').w;
            && (w'.calls == w.calls <==> ImagesAgree(targets))
            && (ImagesAgree(targets) ==> w' == w)
  {
    NothingStale(w, targets, stale);
    IdleUntilNeeded(Progress(w, NO_CHANGES), w.configs.Keys, targets, ds');
    NeedIsFound(w, targets);
    if ImagesAgree(targets) {
      forall i | 0 <= i < |targets| ensures !NeedsUpdate(w, targets[i]) {
        AgreedIsLast(w, targets, i);
      }
    } else {
      var i, j :| 0 <= i < j < |targets| && targets[i].challengeId == targets[j].challengeId &&
                  targets[i].dockerImage != targets[j].dockerImage;
      assert AtTargetFor(w, targets, targets[i].challengeId);
      assert NeedsUpdate(w, targets[i]) || NeedsUpdate(w, targets[j]);
    }
  }

  lemma NothingStale(w: Manager, targets: seq<Config>, stale: seq<ChallengeId>)
    requires AtTarget(w, targets) && Enumerates(stale, w.configs.Keys - Ids(targets))
    ensures stale == []
  {
    if stale != [] {
      var id := stale[0];
      assert id in stale;
      assert AtTargetFor(w, targets, id);
      HasIdIsMembership(targets, id);
    }
  }

  lemma AgreedIsLast(w: Manager, targets: seq<Config>, i: nat)
    requires AtTarget(w, targets) && ImagesAgree(targets) && i < |targets|
    ensures !NeedsUpdate(w, targets[i])
  {
    var id := targets[i].challengeId;
    IdAt(targets, i);
    var k := LastPosition(targets, id);
    assert AtTargetFor(w, targets, id);
  }

  // ---------------------------------------------------------------- who is recorded after a sync

  ghost predicate DistinctIds(targets: seq<Config>) {
    forall i, j :: 0 <= i < j < |targets| ==> targets[i].challengeId != targets[j].challengeId
  }

  lemma {:induction false} LacksId(targets: seq<Config>, id: ChallengeId)
    requires forall i :: 0 <= i < |targets| ==> targets[i].challengeId != id
    ensures !HasId(targets, id)
  {
    if targets == [] {
    } else {
      LacksId(targets[..|targets| - 1], id);
    }
  }

  lemma {:induction false} TargetRecorded(p: Progress, current: set<ChallengeId>, targets: seq<Config>,
        ds: seq<Docker>, i: nat)
    requires |targets| == |ds| && i < |targets| && DistinctIds(targets)
    requires |TargetPhase(p, current, targets, ds).result.errors| == |p.result.errors|
    ensures var id := targets[i].challengeId;
            id in TargetPhase(p, current, targets, ds).w.challenges <==> id in p.w.challenges || NeedsUpdate(p.w, targets[i])
  {
    var n := |targets| - 1;
    var q := TargetPhase(p, current, targets[..n], ds[..n]);
    TargetPhaseAt(p, current, targets[..n], ds[..n], targets[i].challengeId);
    RecordedByStep(q, current, targets[n], ds[n], targets[i].challengeId);
    if i == n {
      LacksId(targets[..n], targets[i].challengeId);
    } else {
      TargetRecorded(p, current, targets[..n], ds[..n], i);
    }
  }

  /** One target step records the target's own instance, unless it fails, and leaves the others. */
  lemma RecordedByStep(q: Progress, current: set<ChallengeId>, c: Config, d: Docker, id: ChallengeId)
    ensures var q' := TargetStep(q, current, c, d);
            && |q.result.errors| <= |q'.result.errors|
            && (id != c.challengeId ==> (id in q'.w.challenges <==> id in q.w.challenges))
            && (id == c.challengeId && |q'.result.errors| == |q.result.errors| ==>
                  (id in q'.w.challenges <==> id in q.w.challenges || NeedsUpdate(q.w, c)))
  {
  }

  /**
   * After an error-free sync a target has an instance recorded if and only if it had one before or its
   * configuration was missing or had another image. A configuration whose instance was lost to a failed
   * removal keeps the target from being started: the sync reports it as unchanged.
   */
  lemma SyncRecords(w: Manager, targets: seq<Config>, stale: seq<ChallengeId>, ds: seq<Docker>, ds': seq<Docker>,
        i: nat)
    requires ValidSync(w, targets, stale, ds, ds') && DistinctIds(targets) && i < |targets|
    requires Syncing(w, targets, stale, ds, ds').result.errors == []
    ensures var id := targets[i].challengeId;
            id in Syncing(w, targets, stale, ds, ds').w.challenges <==> id in w.challenges || NeedsUpdate(w, targets[i])
  {
    var p := Progress(w, NO_CHANGES);
    var p1 := RemovePhase(p, stale, ds);
    var id := targets[i].challengeId;
    RemovePhaseAt(p, stale, ds, id);
    TargetPhaseAt(p1, w.configs.Keys, targets, ds', id);
    IdAt(targets, i);
    HasIdIsMembership(targets, id);
    TargetRecorded(p1, w.configs.Keys, targets, ds', i);
  }

  // ---------------------------------------------------------------- who runs after a sync

  /** An instance is recorded and its container is the one running under its name. */
  predicate Runs(instances: map<ChallengeId, Instance>, running: Containers, id: ChallengeId) {
    && id in instances && instances[id].containerName in running
    && running[instances[id].containerName] == instances[id].containerId
  }

  predicate Up(w: Manager, id: ChallengeId) {
    Runs(w.challenges, w.running, id)
  }

  ghost function ContainerIds(m: map<ChallengeId, Instance>): set<string> {
    set id | id in m :: m[id].containerId
  }

  /** No container is recorded for two challenges. */
  ghost predicate Separate(m: map<ChallengeId, Instance>) {
    forall a, b :: a in m && b in m && a != b ==> m[a].containerId != m[b].containerId
  }

  /** Docker hands out ids that are neither recorded nor handed out twice. */
  ghost predicate FreshIds(m: map<ChallengeId, Instance>, ds: seq<Docker>) {
    && (forall i :: 0 <= i < |ds| ==> ds[i].containerId !in ContainerIds(m))
    && (forall i, j :: 0 <= i < j < |ds| ==> ds[i].containerId != ds[j].containerId)
  }

  lemma RecordFresh(m: map<ChallengeId, Instance>, id: ChallengeId, instance: Instance)
    requires Separate(m) && instance.containerId !in ContainerIds(m)
    ensures Separate(m[id := instance])
    ensures ContainerIds(m[id := instance]) <= ContainerIds(m) + {instance.containerId}
  {
    forall a | a in m ensures m[a].containerId != instance.containerId {
      assert m[a].containerId in ContainerIds(m);
    }
  }

  /** Stopping another challenge's container changes nothing for this one. */
  lemma StopsOnlyOne(m: map<ChallengeId, Instance>, running: Containers, other: ChallengeId, id: ChallengeId)
    requires Separate(m) && other in m && id != other
    ensures Runs(m, Without(running, m[other].containerId), id) <==> Runs(m, running, id)
  {
  }

  /** A start takes the name from whoever runs under it. */
  lemma StartTakesName(m: map<ChallengeId, Instance>, running: Containers, c: Config, d: Docker, id: ChallengeId)
    requires d.containerId !in ContainerIds(m)
    ensures var m', running' := m[c.challengeId := Started(c, d)], running[ContainerName(c) := d.containerId];
            && Runs(m', running', c.challengeId)
            && (id != c.challengeId ==>
                  (Runs(m', running', id) <==> Runs(m, running, id) && m[id].containerName != ContainerName(c)))
  {
    if id in m {
      assert m[id].containerId in ContainerIds(m);
    }
  }

  /** An update that succeeds runs its challenge, and stops another only by taking its name. */
  lemma UpdatingUp(w: Manager, c: Config, d: Docker, id: ChallengeId)
    requires Separate(w.challenges) && d.containerId !in ContainerIds(w.challenges) && Updating(w, c, d).1
    ensures var w' := Updating(w, c, d).0;
            && Up(w', c.challengeId) && w'.challenges[c.challengeId].containerName == ContainerName(c)
            && (id != c.challengeId ==>
                  (Up(w', id) <==> Up(w, id) && w.challenges[id].containerName != ContainerName(c)))
  {
    if c.challengeId in w.challenges {
      var stopped := Without(w.running, w.challenges[c.challengeId].containerId);
      if id != c.challengeId {
        StopsOnlyOne(w.challenges, w.running, c.challengeId, id);
      }
      StartTakesName(w.challenges, stopped, c, d, id);
    } else {
      StartTakesName(w.challenges, w.running, c, d, id);
    }
  }

  lemma UpdatingSeparate(w: Manager, c: Config, d: Docker)
    requires Separate(w.challenges) && d.containerId !in ContainerIds(w.challenges)
    ensures var w' := Updating(w, c, d).0;
            Separate(w'.challenges) && ContainerIds(w'.challenges) <= ContainerIds(w.challenges) + {d.containerId}
  {
    RecordFresh(w.challenges, c.challengeId, Started(c, d));
  }

  lemma RemovingUp(w: Manager, id: ChallengeId, d: Docker, other: ChallengeId)
    requires Separate(w.challenges)
    ensures var w' := Removing(w, id, d).0;
            && Separate(w'.challenges) && ContainerIds(w'.challenges) <= ContainerIds(w.challenges)
            && (other != id ==> (Up(w', other) <==> Up(w, other)))
  {
  }

  lemma {:induction false} RemovePhaseUp(p: Progress, ids: seq<ChallengeId>, ds: seq<Docker>, id: ChallengeId)
    requires |ids| == |ds| && Separate(p.w.challenges)
    ensures var w' := RemovePhase(p, ids, ds).w;
            && Separate(w'.challenges) && ContainerIds(w'.challenges) <= ContainerIds(p.w.challenges)
            && (id !in ids ==> (Up(w', id) <==> Up(p.w, id)))
  {
    if ids == [] {
    } else {
      var init, ds', last := ids[..|ids| - 1], ds[..|ids| - 1], ids[|ids| - 1];
      RemovePhaseUp(p, init, ds', id);
      RemovingUp(RemovePhase(p, init, ds').w, last, ds[|ids| - 1], id);
      assert last in ids && forall x :: x in init ==> x in ids;
    }
  }

  // What a sync without errors starts, read off the targets and the images known before it.

  /** The image known for an id after the given targets, if any. */
  function KnownImage(images: map<ChallengeId, string>, targets: seq<Config>, id: ChallengeId): Option<string> {
    if HasId(targets, id) then Some(LastImage(targets, id)) else if id in images then Some(images[id]) else None
  }

  /** Target `j` asks for another image than the one known by then, so its container is started. */
  predicate Starts(images: map<ChallengeId, string>, targets: seq<Config>, j: nat)
    requires j < |targets|
  {
    KnownImage(images, targets[..j], targets[j].challengeId) != Some(targets[j].dockerImage)
  }

  lemma StartsInit(images: map<ChallengeId, string>, targets: seq<Config>, j: nat)
    requires j < |targets| - 1
    ensures Starts(images, targets[..|targets| - 1], j) == Starts(images, targets, j)
  {
    assert targets[..|targets| - 1][..j] == targets[..j];
  }

  /** The last start of this id, or -1. */
  function LastStart(images: map<ChallengeId, string>, targets: seq<Config>, id: ChallengeId): (k: int)
    ensures -1 <= k < |targets|
    ensures k >= 0 ==> Starts(images, targets, k) && targets[k].challengeId == id
    ensures forall j :: k < j < |targets| && Starts(images, targets, j) ==> targets[j].challengeId != id
  {
    if targets == [] then -1
    else
      var n := |targets| - 1;
      assert forall j :: 0 <= j < n ==> targets[..n][j] == targets[j] && targets[..n][..j] == targets[..j];
      if Starts(images, targets, n) && targets[n].challengeId == id then n else LastStart(images, targets[..n], id)
  }

  /** No start after target `k` uses the name. */
  ghost predicate Untaken(images: map<ChallengeId, string>, targets: seq<Config>, k: int, name: string)
    requires -1 <= k
  {
    forall j :: k < j < |targets| && Starts(images, targets, j) ==> ContainerName(targets[j]) != name
  }

  /** The name the container of `id` has in the end. */
  ghost function Own(images: map<ChallengeId, string>, targets: seq<Config>, id: ChallengeId, name: string): string {
    var k := LastStart(images, targets, id);
    if k >= 0 then ContainerName(targets[k]) else name
  }

  /**
   * The container of `id` was started by the sync, or ran before under `name` and was left alone, and no
   * later start took its name.
   */
  ghost predicate KeepsRunning(images: map<ChallengeId, string>, targets: seq<Config>, id: ChallengeId,
        before: bool, name: string) {
    var k := LastStart(images, targets, id);
    (k >= 0 || before) && Untaken(images, targets, k, Own(images, targets, id, name))
  }

  lemma UntakenStep(images: map<ChallengeId, string>, targets: seq<Config>, k: int, name: string)
    requires -1 <= k < |targets| - 1
    ensures var n := |targets| - 1;
            Untaken(images, targets, k, name) <==>
            Untaken(images, targets[..n], k, name) && (Starts(images, targets, n) ==> ContainerName(targets[n]) != name)
  {
    var n := |targets| - 1;
    forall j | 0 <= j < n ensures Starts(images, targets[..n], j) == Starts(images, targets, j) && targets[..n][j] == targets[j] {
      StartsInit(images, targets, j);
    }
  }

  /** One more target. */
  lemma KeepsRunningStep(images: map<ChallengeId, string>, targets: seq<Config>, id: ChallengeId, before: bool,
        name: string)
    requires targets != []
    ensures var n := |targets| - 1;
            var started := Starts(images, targets, n);
            && Own(images, targets, id, name) == (if started && targets[n].challengeId == id then ContainerName(targets[n])
                                                  else Own(images, targets[..n], id, name))
            && (KeepsRunning(images, targets, id, before, name) <==>
                  if !started then KeepsRunning(images, targets[..n], id, before, name)
                  else targets[n].challengeId == id ||
                       (KeepsRunning(images, targets[..n], id, before, name) &&
                        ContainerName(targets[n]) != Own(images, targets[..n], id, name)))
  {
    var n := |targets| - 1;
    if !(Starts(images, targets, n) && targets[n].challengeId == id) {
      var k := LastStart(images, targets[..n], id);
      assert LastStart(images, targets, id) == k;
      UntakenStep(images, targets, k, Own(images, targets[..n], id, name));
    }
  }

  function Images(w: Manager): map<ChallengeId, string> {
    map id | id in w.configs :: w.configs[id].dockerImage
  }

  function NameOf(m: map<ChallengeId, Instance>, id: ChallengeId): string {
    if id in m then m[id].containerName else ""
  }

  ghost predicate PhaseUp(w: Manager, q: Manager, targets: seq<Config>, ds: seq<Docker>, id: ChallengeId) {
    && Grown(w.challenges, q.challenges, ds)
    && (Up(q, id) <==> KeepsRunning(Images(w), targets, id, Up(w, id), NameOf(w.challenges, id)))
    && NameOf(q.challenges, id) == Own(Images(w), targets, id, NameOf(w.challenges, id))
  }

  lemma {:induction false} TargetPhaseUp(p: Progress, current: set<ChallengeId>, targets: seq<Config>,
        ds: seq<Docker>, id: ChallengeId)
    requires |targets| == |ds| && Separate(p.w.challenges) && FreshIds(p.w.challenges, ds)
    requires |TargetPhase(p, current, targets, ds).result.errors| == |p.result.errors|
    ensures PhaseUp(p.w, TargetPhase(p, current, targets, ds).w, targets, ds, id)
  {
    if targets == [] {
    } else {
      var n := |targets| - 1;
      var q := TargetPhase(p, current, targets[..n], ds[..n]);
      TargetPhaseAt(p, current, targets[..n], ds[..n], targets[n].challengeId);
      TargetPhaseUp(p, current, targets[..n], ds[..n], id);
      assert NeedsUpdate(q.w, targets[n]) <==> Starts(Images(p.w), targets, n);
      TargetStepUp(p.w, q, current, targets, ds, id);
    }
  }

  lemma TargetStepUp(w: Manager, q: Progress, current: set<ChallengeId>, targets: seq<Config>, ds: seq<Docker>,
        id: ChallengeId)
    requires |targets| == |ds| > 0 && FreshIds(w.challenges, ds)
    requires PhaseUp(w, q.w, targets[..|targets| - 1], ds[..|targets| - 1], id)
    requires NeedsUpdate(q.w, targets[|targets| - 1]) <==> Starts(Images(w), targets, |targets| - 1)
    requires var q' := TargetStep(q, current, targets[|targets| - 1], ds[|targets| - 1]);
             |q'.result.errors| == |q.result.errors|
    ensures PhaseUp(w, TargetStep(q, current, targets[|targets| - 1], ds[|targets| - 1]).w, targets, ds, id)
  {
    var n := |targets| - 1;
    KeepsRunningStep(Images(w), targets, id, Up(w, id), NameOf(w.challenges, id));
    StillFresh(w.challenges, q.w.challenges, ds);
    if NeedsUpdate(q.w, targets[n]) {
      UpdatingSeparate(q.w, targets[n], ds[n]);
      UpdatingUp(q.w, targets[n], ds[n], id);
    }
    GrownOneMore(w.challenges, q.w.challenges, TargetStep(q, current, targets[n], ds[n]).w.challenges, ds);
  }

  /**
   * After an error-free sync the container of a target runs if and only if the sync started it, or it ran
   * before and was left alone, and no later start in the sync took its name.
   */
  lemma SyncRuns(w: Manager, targets: seq<Config>, stale: seq<ChallengeId>, ds: seq<Docker>, ds': seq<Docker>,
        id: ChallengeId)
    requires ValidSync(w, targets, stale, ds, ds') && HasId(targets, id)
    requires Separate(w.challenges) && FreshIds(w.challenges, ds')
    requires Syncing(w, targets, stale, ds, ds').result.errors == []
    ensures Up(Syncing(w, targets, stale, ds, ds').w, id) <==>
            KeepsRunning(Images(w), targets, id, Up(w, id), NameOf(w.challenges, id))
  {
    var p := Progress(w, NO_CHANGES);
    var p1 := RemovePhase(p, stale, ds);
    HasIdIsMembership(targets, id);
    RemovePhaseAt(p, stale, ds, id);
    RemovePhaseUp(p, stale, ds, id);
    TargetPhaseAt(p1, w.configs.Keys, targets, ds', id);
    TargetPhaseUp(p1, w.configs.Keys, targets, ds', id);
    forall j | 0 <= j < |targets| ensures ImageAgrees(Images(w), Images(p1.w), targets[j].challengeId) {
      IdAt(targets, j);
      HasIdIsMembership(targets, targets[j].challengeId);
      RemovePhaseAt(p, stale, ds, targets[j].challengeId);
    }
    SameKeepsRunning(Images(w), Images(p1.w), targets, id, Up(w, id), NameOf(w.challenges, id));
  }

  ghost predicate ImageAgrees(a: map<ChallengeId, string>, b: map<ChallengeId, string>, id: ChallengeId) {
    (id in a <==> id in b) && (id in a ==> a[id] == b[id])
  }

  /** Only the images known for the targets matter. */
  lemma {:induction false} SameKeepsRunning(a: map<ChallengeId, string>, b: map<ChallengeId, string>,
        targets: seq<Config>,
        id: ChallengeId, before: bool, name: string)
    requires forall j :: 0 <= j < |targets| ==> ImageAgrees(a, b, targets[j].challengeId)
    ensures KeepsRunning(a, targets, id, before, name) == KeepsRunning(b, targets, id, before, name)
    ensures Own(a, targets, id, name) == Own(b, targets, id, name)
  {
    if targets == [] {
    } else {
      var n := |targets| - 1;
      SameKeepsRunning(a, b, targets[..n], id, before, name);
      KeepsRunningStep(a, targets, id, before, name);
      KeepsRunningStep(b, targets, id, before, name);
      assert ImageAgrees(a, b, targets[n].challengeId);
    }
  }

  /**
   * Two challenges whose names differ only in case and spaces: a sync that starts both, without any error,
   * records both and leaves the first one's container removed.
   */
  lemma NamesCollide(a: Config, b: Config, d: Docker, d': Docker)
    requires a.challengeId != b.challengeId && ContainerName(a) == ContainerName(b)
    requires d.pullOk && d.startOk && d'.pullOk && d'.startOk && d.containerId != d'.containerId
    ensures var p := Syncing(EMPTY, [a, b], [], [], [d, d']);
            && p.result == SyncResult([a.challengeId, b.challengeId], [], [], [], [])
            && a.challengeId in p.w.challenges && !Up(p.w, a.challengeId) && Up(p.w, b.challengeId)
  {
    assert [a, b][..1] == [a] && [a][..0] == [] && [d, d'][..1] == [d] && [d][..0] == [];
    var p0 := Progress(EMPTY, NO_CHANGES);
    assert RemovePhase(p0, [], []) == p0 && TargetPhase(p0, {}, [], []) == p0;
    var p1 := TargetPhase(p0, {}, [a], [d]);
    assert p1 == TargetStep(p0, {}, a, d);
    assert TargetPhase(p0, {}, [a, b], [d, d']) == TargetStep(p1, {}, b, d');
    assert EMPTY.configs.Keys == {};
  }

  lemma TermBench()
    ensures Normal("Term Bench") == Normal("term-bench") == "term-bench"
  {
    NormalMeans("Term Bench");
    NormalMeans("term-bench");
  }

  lemma {:induction false} NormalMeans(name: string)
    ensures |Normal(name)| == |name| && forall i :: 0 <= i < |name| ==> Normal(name)[i] == Plain(name[i])
  {
    if name == [] {
    } else {
      NormalMeans(name[..|name| - 1]);
    }
  }

  /**
   * An update that stopped the old container and then fails leaves both maps as they were and nothing
   * running. An error-free sync to the image still configured makes no difference; a restart repairs it.
   */
  lemma FailedUpdateStops(w: Manager, c: Config, d: Docker, again: Docker)
    requires c.challengeId in w.challenges && c.challengeId in w.configs
    requires d.stopOk && !(d.removeOk && d.pullOk && d.startOk)
    ensures var w1 := Updating(w, c, d).0;
            && !Updating(w, c, d).1 && w1.challenges == w.challenges && w1.configs == w.configs
            && !Up(w1, c.challengeId)
            && (forall targets, stale, ds, ds' ::
                  (ValidSync(w1, targets, stale, ds, ds') && ImagesAgree(targets) && AtTarget(w1, targets)) ==>
                  !Up(Syncing(w1, targets, stale, ds, ds').w, c.challengeId))
            && (again.stopOk && again.removeOk && again.pullOk && again.startOk &&
                w.configs[c.challengeId].challengeId == c.challengeId ==>
                  Up(Restarting(w1, c.challengeId, again).0, c.challengeId))
  {
    var w1 := Updating(w, c, d).0;
    forall targets, stale, ds, ds' | ValidSync(w1, targets, stale, ds, ds') && ImagesAgree(targets) && AtTarget(w1, targets)
      ensures !Up(Syncing(w1, targets, stale, ds, ds').w, c.challengeId)
    {
      SyncIdleAtTarget(w1, targets, stale, ds, ds');
    }
  }

  // ---------------------------------------------------------------- containers stay separate over every run

  ghost predicate FreshOp(w: Manager, op: Op) {
    match op
    case DoAdd(_, d) => d.containerId !in ContainerIds(w.challenges)
    case DoUpdate(_, d) => d.containerId !in ContainerIds(w.challenges)
    case DoRestart(_, d) => d.containerId !in ContainerIds(w.challenges)
    case DoRestartUnhealthy(_, ds) => FreshIds(w.challenges, ds)
    case DoSync(_, _, _, ds') => FreshIds(w.challenges, ds')
    case _ => true
  }

  ghost predicate FreshRun(w: Manager, ops: seq<Op>)
    requires ValidRun(w, ops)
    decreases |ops|
  {
    ops == [] || (FreshOp(w, ops[0]) && FreshRun(Exec(w, ops[0]), ops[1..]))
  }

  /** Containers recorded at the end come from the start or were handed out on the way. */
  ghost predicate Grown(m: map<ChallengeId, Instance>, m': map<ChallengeId, Instance>, ds: seq<Docker>) {
    && Separate(m')
    && forall x :: x in ContainerIds(m') ==> x in ContainerIds(m) || exists i :: 0 <= i < |ds| && ds[i].containerId == x
  }

  lemma StillFresh(m: map<ChallengeId, Instance>, m1: map<ChallengeId, Instance>, ds: seq<Docker>)
    requires ds != [] && FreshIds(m, ds) && Grown(m, m1, ds[..|ds| - 1])
    ensures ds[|ds| - 1].containerId !in ContainerIds(m1)
  {
    var n := |ds| - 1;
    assert forall i :: 0 <= i < n ==> ds[..n][i] == ds[i];
  }

  lemma GrownOneMore(m: map<ChallengeId, Instance>, m1: map<ChallengeId, Instance>, m2: map<ChallengeId, Instance>,
        ds: seq<Docker>)
    requires ds != [] && Grown(m, m1, ds[..|ds| - 1]) && Separate(m2)
    requires ContainerIds(m2) <= ContainerIds(m1) + {ds[|ds| - 1].containerId}
    ensures Grown(m, m2, ds)
  {
    var n := |ds| - 1;
    assert forall i :: 0 <= i < n ==> ds[..n][i] == ds[i];
  }

  lemma {:induction false} RestartEachSeparate(w: Manager, ids: seq<ChallengeId>, ds: seq<Docker>)
    requires |ids| == |ds| && Separate(w.challenges) && FreshIds(w.challenges, ds)
    ensures Grown(w.challenges, RestartEach(w, ids, ds).challenges, ds)
  {
    if ids == [] {
    } else {
      var n := |ids| - 1;
      var w1 := RestartEach(w, ids[..n], ds[..n]);
      RestartEachSeparate(w, ids[..n], ds[..n]);
      StillFresh(w.challenges, w1.challenges, ds);
      if ids[n] in w1.configs {
        UpdatingSeparate(w1, w1.configs[ids[n]], ds[n]);
      }
      GrownOneMore(w.challenges, w1.challenges, RestartEach(w, ids, ds).challenges, ds);
    }
  }

  lemma {:induction false} TargetPhaseSeparate(p: Progress, current: set<ChallengeId>, targets: seq<Config>,
        ds: seq<Docker>)
    requires |targets| == |ds| && Separate(p.w.challenges) && FreshIds(p.w.challenges, ds)
    ensures Grown(p.w.challenges, TargetPhase(p, current, targets, ds).w.challenges, ds)
  {
    if targets == [] {
    } else {
      var n := |targets| - 1;
      var q := TargetPhase(p, current, targets[..n], ds[..n]);
      TargetPhaseSeparate(p, current, targets[..n], ds[..n]);
      StillFresh(p.w.challenges, q.w.challenges, ds);
      UpdatingSeparate(q.w, targets[n], ds[n]);
      GrownOneMore(p.w.challenges, q.w.challenges, TargetPhase(p, current, targets, ds).w.challenges, ds);
    }
  }

  lemma {:induction false} RemoveEachSeparate(w: Manager, ids: seq<ChallengeId>, ds: seq<Docker>)
    requires |ids| == |ds| && Separate(w.challenges)
    ensures Separate(RemoveEach(w, ids, ds).challenges)
  {
    if ids == [] {
    } else {
      var n := |ids| - 1;
      RemoveEachSeparate(w, ids[..n], ds[..n]);
      RemovingUp(RemoveEach(w, ids[..n], ds[..n]), ids[n], ds[n], 0);
    }
  }

  lemma ExecSeparate(w: Manager, op: Op)
    requires ValidOp(w, op) && FreshOp(w, op) && Separate(w.challenges)
    ensures Separate(Exec(w, op).challenges)
  {
    match op
    case DoAdd(c, d) => RecordFresh(w.challenges, c.challengeId, Started(c, d));
    case DoUpdate(c, d) => UpdatingSeparate(w, c, d);
    case DoRemove(id, d) => RemovingUp(w, id, d, 0);
    case DoRestart(id, d) =>
      if id in w.configs {
        UpdatingSeparate(w, w.configs[id], d);
      }
    case DoRestartUnhealthy(ids, ds) => RestartEachSeparate(w, ids, ds);
    case DoStopAll(ids, ds) => RemoveEachSeparate(w, ids, ds);
    case DoSync(targets, stale, ds, ds') =>
      var p := Progress(w, NO_CHANGES);
      RemovePhaseUp(p, stale, ds, 0);
      TargetPhaseSeparate(RemovePhase(p, stale, ds), w.configs.Keys, targets, ds');
    case HealthReport(id, status) =>
  }

  /** Over every run in which Docker's ids are fresh, no container is recorded for two challenges. */
  lemma {:induction false} RunSeparate(w: Manager, ops: seq<Op>)
    requires Separate(w.challenges) && ValidRun(w, ops) && FreshRun(w, ops)
    ensures Separate(Run(w, ops).challenges)
    decreases |ops|
  {
    if ops == [] {
    } else {
      ExecSeparate(w, ops[0]);
      RunSeparate(Exec(w, ops[0]), ops[1..]);
    }
  }

  // ---------------------------------------------------------------- what a sync reports

  /** In which of the lists of a target phase an id stands. */
  ghost predicate SameReport(a: SyncResult, b: SyncResult, id: ChallengeId) {
    && (id in a.added <==> id in b.added)
    && (id in a.updated <==> id in b.updated)
    && (id in a.untouched <==> id in b.untouched)
  }

  lemma {:induction false} RemovalsReported(p: Progress, ids: seq<ChallengeId>, ds: seq<Docker>, id: ChallengeId)
    requires |ids| == |ds|
    ensures var q := RemovePhase(p, ids, ds);
            && SameReport(p.result, q.result, id)
            && (|q.result.errors| == |p.result.errors| ==> q.result.removed == p.result.removed + ids)
  {
    if ids == [] {
    } else {
      var init := ids[..|ids| - 1];
      RemovalsReported(p, init, ds[..|ids| - 1], id);
      RemovePhaseAt(p, init, ds[..|ids| - 1], id);
      assert p.result.removed + ids == (p.result.removed + init) + [ids[|ids| - 1]];
    }
  }

  lemma {:induction false} OthersUnreported(p: Progress, current: set<ChallengeId>, targets: seq<Config>,
        ds: seq<Docker>, id: ChallengeId)
    requires |targets| == |ds| && !HasId(targets, id)
    ensures SameReport(p.result, TargetPhase(p, current, targets, ds).result, id)
    ensures TargetPhase(p, current, targets, ds).result.removed == p.result.removed
  {
    if targets == [] {
    } else {
      OthersUnreported(p, current, targets[..|targets| - 1], ds[..|targets| - 1], id);
    }
  }

  /** Added if its configuration was missing at the start, updated if the image differed, untouched otherwise. */
  ghost predicate Reported(result: SyncResult, w: Manager, current: set<ChallengeId>, c: Config) {
    var id := c.challengeId;
    && (id in result.added <==> NeedsUpdate(w, c) && id !in current)
    && (id in result.updated <==> NeedsUpdate(w, c) && id in current)
    && (id in result.untouched <==> !NeedsUpdate(w, c))
  }

  lemma {:induction false} TargetReported(p: Progress, current: set<ChallengeId>, targets: seq<Config>,
        ds: seq<Docker>, i: nat)
    requires |targets| == |ds| && i < |targets| && DistinctIds(targets)
    requires |TargetPhase(p, current, targets, ds).result.errors| == |p.result.errors|
    requires SameReport(p.result, NO_CHANGES, targets[i].challengeId)
    ensures Reported(TargetPhase(p, current, targets, ds).result, p.w, current, targets[i])
    ensures TargetPhase(p, current, targets, ds).result.removed == p.result.removed
  {
    var init, ds' := targets[..|targets| - 1], ds[..|targets| - 1];
    TargetPhaseAt(p, current, init, ds', targets[i].challengeId);
    if i == |targets| - 1 {
      LacksId(init, targets[i].challengeId);
      OthersUnreported(p, current, init, ds', targets[i].challengeId);
    } else {
      TargetReported(p, current, init, ds', i);
    }
  }

  /** An error-free sync lists as removed what was stale, and every target in exactly the list it belongs to. */
  lemma SyncReports(w: Manager, targets: seq<Config>, stale: seq<ChallengeId>, ds: seq<Docker>, ds': seq<Docker>,
        i: nat)
    requires ValidSync(w, targets, stale, ds, ds') && DistinctIds(targets) && i < |targets|
    requires Syncing(w, targets, stale, ds, ds').result.errors == []
    ensures Syncing(w, targets, stale, ds, ds').result.removed == stale
    ensures Reported(Syncing(w, targets, stale, ds, ds').result, w, w.configs.Keys, targets[i])
  {
    var p, id := Progress(w, NO_CHANGES), targets[i].challengeId;
    var p1 := RemovePhase(p, stale, ds);
    RemovePhaseAt(p, stale, ds, id);
    RemovalsReported(p, stale, ds, id);
    TargetPhaseAt(p1, w.configs.Keys, targets, ds', id);
    IdAt(targets, i);
    HasIdIsMembership(targets, id);
    TargetReported(p1, w.configs.Keys, targets, ds', i);
  }

  /**
   * A removal that fails half-way forgets the instance and keeps the configuration; an error-free
   * sync that still wants the challenge with that image then leaves it stopped and lists it as untouched.
   */
  lemma FailedRemovalStrands(w: Manager, d: Docker, targets: seq<Config>, stale: seq<ChallengeId>,
        ds: seq<Docker>, ds': seq<Docker>, i: nat)
    requires i < |targets| && DistinctIds(targets) && targets[i].challengeId in w.configs
    requires targets[i].dockerImage == w.configs[targets[i].challengeId].dockerImage
    requires !Removing(w, targets[i].challengeId, d).1
    requires var w1 := Removing(w, targets[i].challengeId, d).0;
             ValidSync(w1, targets, stale, ds, ds') && Syncing(w1, targets, stale, ds, ds').result.errors == []
    ensures var p := Syncing(Removing(w, targets[i].challengeId, d).0, targets, stale, ds, ds');
            targets[i].challengeId !in p.w.challenges && targets[i].challengeId in p.result.untouched
  {
    var w1 := Removing(w, targets[i].challengeId, d).0;
    SyncRecords(w1, targets, stale, ds, ds', i);
    SyncReports(w1, targets, stale, ds, ds', i);
  }

  // ---------------------------------------------------------------- what is stopped and what is started

  /** The container runs under no name. */
  ghost predicate Gone(running: Containers, containerId: string) {
    forall n :: n in running ==> running[n] != containerId
  }

  /** Nothing is started, and whatever is not among `stopped` goes on as before. */
  ghost predicate StopsOnly(running: Containers, running': Containers, stopped: set<string>) {
    && (forall n :: n in running' ==> n in running && running'[n] == running[n])
    && (forall n :: n in running && running[n] !in stopped ==> n in running')
  }

  /** A removal stops the challenge's container and no other, if it stops any. */
  lemma RemovalStops(w: Manager, id: ChallengeId, d: Docker)
    requires id in w.challenges
    ensures var (w', ok) := Removing(w, id, d);
            var containerId := w.challenges[id].containerId;
            && (ok <==> d.stopOk && d.removeOk)
            && id !in w'.challenges && (id in w'.configs <==> id in w.configs && !ok)
            && (d.stopOk ==> Gone(w'.running, containerId))
            && StopsOnly(w.running, w'.running, if d.stopOk then {containerId} else {})
  {
  }

  /** Of other challenges it forgets nothing, and a container that is gone stays gone. */
  lemma RemovalLeaves(w: Manager, id: ChallengeId, d: Docker, other: ChallengeId, containerId: string)
    ensures var w' := Removing(w, id, d).0;
            && (other != id ==> SameAt(w, w', other)) && id !in w'.challenges
            && (Gone(w.running, containerId) ==> Gone(w'.running, containerId))
            && StopsOnly(w.running, w'.running, ContainerIds(w.challenges))
            && ContainerIds(w'.challenges) <= ContainerIds(w.challenges)
  {
    if id in w.challenges {
      assert w.challenges[id].containerId in ContainerIds(w.challenges);
    }
  }

  lemma {:induction false} RemovalsLeave(w: Manager, ids: seq<ChallengeId>, ds: seq<Docker>, other: ChallengeId)
    requires |ids| == |ds|
    ensures var w' := RemoveEach(w, ids, ds);
            && (other !in ids ==> SameAt(w, w', other))
            && (other in ids ==> other !in w'.challenges)
            && StopsOnly(w.running, w'.running, ContainerIds(w.challenges))
            && ContainerIds(w'.challenges) <= ContainerIds(w.challenges)
  {
    if ids == [] {
    } else {
      var n := |ids| - 1;
      RemovalsLeave(w, ids[..n], ds[..n], other);
      RemovalLeaves(RemoveEach(w, ids[..n], ds[..n]), ids[n], ds[n], other, "");
      assert other in ids <==> other in ids[..n] || other == ids[n];
    }
  }

  /** Each removal reported as successful forgot the challenge altogether and stopped its container. */
  lemma {:induction false} ReportedRemovalStops(w: Manager, ids: seq<ChallengeId>, ds: seq<Docker>, k: nat)
    requires |ids| == |ds| && k < |ids| && Distinct(ids) && ids[k] in w.challenges
    ensures var (w', results) := (RemoveEach(w, ids, ds), RemoveResults(w, ids, ds));
            && |results| == |ids| && results[k].0 == ids[k]
            && (results[k].1 <==> ds[k].stopOk && ds[k].removeOk)
            && (ids[k] in w'.configs <==> ids[k] in w.configs && !results[k].1)
            && (results[k].1 ==> Gone(w'.running, w.challenges[ids[k]].containerId))
  {
    var n := |ids| - 1;
    var w1 := RemoveEach(w, ids[..n], ds[..n]);
    ResultsLength(w, ids[..n], ds[..n]);
    if k == n {
      RemovalsLeave(w, ids[..n], ds[..n], ids[n]);
      RemovalStops(w1, ids[n], ds[n]);
    } else {
      ReportedRemovalStops(w, ids[..n], ds[..n], k);
      RemovalLeaves(w1, ids[n], ds[n], ids[k], w.challenges[ids[k]].containerId);
    }
  }

  lemma {:induction false} ResultsLength(w: Manager, ids: seq<ChallengeId>, ds: seq<Docker>)
    requires |ids| == |ds|
    ensures |RemoveResults(w, ids, ds)| == |RestartResults(w, ids, ds)| == |ids|
  {
    if ids == [] {
    } else {
      ResultsLength(w, ids[..|ids| - 1], ds[..|ids| - 1]);
    }
  }

  /**
   * Stopping everything records no instance any more, stops no container that was not recorded, starts none,
   * and keeps the configurations of what has no instance.
   */
  lemma StopAllOutcome(w: Manager, ids: seq<ChallengeId>, ds: seq<Docker>)
    requires Enumerates(ids, w.challenges.Keys) && |ids| == |ds|
    ensures var w' := RemoveEach(w, ids, ds);
            && w'.challenges == map[]
            && StopsOnly(w.running, w'.running, ContainerIds(w.challenges))
            && forall id :: id !in w.challenges ==> SameAt(w, w', id)
  {
    var w' := RemoveEach(w, ids, ds);
    forall id ensures id !in w'.challenges && (id !in w.challenges ==> SameAt(w, w', id)) {
      RemovalsLeave(w, ids, ds, id);
    }
    RemovalsLeave(w, ids, ds, 0);
  }

  lemma {:induction false} StalePhaseStops(p: Progress, ids: seq<ChallengeId>, ds: seq<Docker>, id: ChallengeId)
    requires |ids| == |ds| && Distinct(ids) && id in ids && id in p.w.challenges
    requires |RemovePhase(p, ids, ds).result.errors| == |p.result.errors|
    ensures Gone(RemovePhase(p, ids, ds).w.running, p.w.challenges[id].containerId)
  {
    var n := |ids| - 1;
    var q := RemovePhase(p, ids[..n], ds[..n]);
    RemovePhaseAt(p, ids[..n], ds[..n], id);
    if id == ids[n] {
      assert id !in ids[..n];
      RemovalStops(q.w, id, ds[n]);
    } else {
      StalePhaseStops(p, ids[..n], ds[..n], id);
      RemovalLeaves(q.w, ids[n], ds[n], id, p.w.challenges[id].containerId);
    }
  }

  lemma UpdatingStarts(w: Manager, c: Config, d: Docker, containerId: string)
    requires Gone(w.running, containerId) && d.containerId != containerId
    ensures Gone(Updating(w, c, d).0.running, containerId)
  {
  }

  lemma {:induction false} TargetPhaseStarts(p: Progress, current: set<ChallengeId>, targets: seq<Config>,
        ds: seq<Docker>, containerId: string)
    requires |targets| == |ds| && Gone(p.w.running, containerId)
    requires forall i :: 0 <= i < |ds| ==> ds[i].containerId != containerId
    ensures Gone(TargetPhase(p, current, targets, ds).w.running, containerId)
  {
    if targets == [] {
    } else {
      var n := |targets| - 1;
      TargetPhaseStarts(p, current, targets[..n], ds[..n], containerId);
      UpdatingStarts(TargetPhase(p, current, targets[..n], ds[..n]).w, targets[n], ds[n], containerId);
    }
  }

  /** After an error-free sync the container of every challenge it lists as removed is stopped. */
  lemma SyncStops(w: Manager, targets: seq<Config>, stale: seq<ChallengeId>, ds: seq<Docker>, ds': seq<Docker>,
        id: ChallengeId)
    requires ValidSync(w, targets, stale, ds, ds') && FreshIds(w.challenges, ds')
    requires Syncing(w, targets, stale, ds, ds').result.errors == []
    requires id in Syncing(w, targets, stale, ds, ds').result.removed && id in w.challenges
    ensures Gone(Syncing(w, targets, stale, ds, ds').w.running, w.challenges[id].containerId)
    ensures id !in Syncing(w, targets, stale, ds, ds').w.challenges
  {
    var p := Progress(w, NO_CHANGES);
    var q := RemovePhase(p, stale, ds);
    TargetPhaseAt(q, w.configs.Keys, targets, ds', id);
    RemovedUnchanged(q, w.configs.Keys, targets, ds');
    RemovalsReported(p, stale, ds, id);
    assert q.result.removed == stale;
    StalePhaseStops(p, stale, ds, id);
    StaleForgotten(p, stale, ds, id);
    HasIdIsMembership(targets, id);
    assert w.challenges[id].containerId in ContainerIds(w.challenges);
    TargetPhaseStarts(q, w.configs.Keys, targets, ds', w.challenges[id].containerId);
  }

  lemma {:induction false} RemovedUnchanged(p: Progress, current: set<ChallengeId>, targets: seq<Config>, ds: seq<Docker>)
    requires |targets| == |ds|
    ensures TargetPhase(p, current, targets, ds).result.removed == p.result.removed
  {
    if targets == [] {
    } else {
      RemovedUnchanged(p, current, targets[..|targets| - 1], ds[..|targets| - 1]);
    }
  }

  lemma {:induction false} StaleForgotten(p: Progress, ids: seq<ChallengeId>, ds: seq<Docker>, id: ChallengeId)
    requires |ids| == |ds| && id in ids
    ensures id !in RemovePhase(p, ids, ds).w.challenges
  {
    var n := |ids| - 1;
    if id in ids[..n] {
      StaleForgotten(p, ids[..n], ds[..n], id);
    }
  }

  /**
   * An addition succeeds if and only if the pull and the start do. The challenge is then recorded with its
   * configuration and its container is the one running under its name; on an error both maps stay. Nothing
   * changes under other names.
   */
  lemma AdditionOutcome(w: Manager, c: Config, d: Docker)
    ensures var (w', ok) := Adding(w, c, d);
            var id := c.challengeId;
            && (ok <==> d.pullOk && d.startOk)
            && (!ok ==> w'.challenges == w.challenges && w'.configs == w.configs)
            && (ok ==>
                  && id in w'.configs && w'.configs[id] == c && Up(w', id)
                  && w'.challenges[id].containerId == d.containerId && w'.challenges[id].image == c.dockerImage
                  && w'.challenges[id].status == Starting)
            && (forall other :: other != id ==> SameAt(w, w', other))
            && (forall n :: n != ContainerName(c) ==>
                              (n in w.running <==> n in w'.running) && (n in w.running ==> w'.running[n] == w.running[n]))
  {
  }

  /** Every configuration is kept under its own challenge. */
  ghost predicate Keyed(w: Manager) {
    forall id :: id in w.configs ==> w.configs[id].challengeId == id
  }

  /** An update of another challenge, however it ends, leaves a container running unless it takes its name. */
  lemma UpdateLeavesUp(w: Manager, c: Config, d: Docker, id: ChallengeId)
    requires Separate(w.challenges) && d.containerId !in ContainerIds(w.challenges) && id != c.challengeId
    requires Up(w, id) && w.challenges[id].containerName != ContainerName(c)
    ensures var w' := Updating(w, c, d).0;
            Up(w', id) && w'.challenges[id] == w.challenges[id]
  {
    if c.challengeId in w.challenges {
      StopsOnlyOne(w.challenges, w.running, c.challengeId, id);
    }
  }

  lemma {:induction false} RestartsKeepConfigs(w: Manager, ids: seq<ChallengeId>, ds: seq<Docker>)
    requires |ids| == |ds| && Keyed(w)
    ensures RestartEach(w, ids, ds).configs == w.configs
  {
    if ids == [] {
    } else {
      RestartsKeepConfigs(w, ids[..|ids| - 1], ds[..|ids| - 1]);
    }
  }

  /** No restart after position `k` takes the name of the one at `k`. */
  ghost predicate NameUntaken(configs: map<ChallengeId, Config>, ids: seq<ChallengeId>, k: nat)
    requires k < |ids| && ids[k] in configs
  {
    forall j :: k < j < |ids| && ids[j] in configs ==> ContainerName(configs[ids[j]]) != ContainerName(configs[ids[k]])
  }

  /**
   * A restart succeeds only for a configured challenge; its container, new, then runs under its configured
   * name to the end, unless a later restart takes the name.
   */
  lemma {:induction false} ReportedRestartRuns(w: Manager, ids: seq<ChallengeId>, ds: seq<Docker>, k: nat)
    requires |ids| == |ds| && k < |ids| && Distinct(ids)
    requires Keyed(w) && Separate(w.challenges) && FreshIds(w.challenges, ds)
    ensures |RestartResults(w, ids, ds)| == |ids| && RestartResults(w, ids, ds)[k].0 == ids[k]
    ensures RestartResults(w, ids, ds)[k].1 ==>
              && ids[k] in w.configs
              && (NameUntaken(w.configs, ids, k) ==> RunsAs(RestartEach(w, ids, ds), ids[k], w.configs[ids[k]], ds[k]))
  {
    var n := |ids| - 1;
    var w1 := RestartEach(w, ids[..n], ds[..n]);
    ResultAt(w, ids, ds, k);
    BeforeLastRestart(w, ids, ds);
    if k == n {
      RestartRuns(w1, ids[n], ds[n]);
    } else {
      ReportedRestartRuns(w, ids[..n], ds[..n], k);
      if RestartResults(w, ids, ds)[k].1 && NameUntaken(w.configs, ids, k) {
        UntakenBefore(w.configs, ids, k);
        RestartLeaves(w1, ids[n], ds[n], ids[k], w.configs[ids[k]], ds[k]);
      }
    }
  }

  lemma ResultAt(w: Manager, ids: seq<ChallengeId>, ds: seq<Docker>, k: nat)
    requires |ids| == |ds| && k < |ids|
    ensures var n := |ids| - 1;
            var results := RestartResults(w, ids, ds);
            && |results| == |ids|
            && (k == n ==> results[k] == (ids[n], Restarting(RestartEach(w, ids[..n], ds[..n]), ids[n], ds[n]).1))
            && (k < n ==> |RestartResults(w, ids[..n], ds[..n])| == n && results[k] == RestartResults(w, ids[..n], ds[..n])[k])
  {
    ResultsLength(w, ids[..|ids| - 1], ds[..|ids| - 1]);
  }

  /** What the last restart of a loop starts from. */
  lemma BeforeLastRestart(w: Manager, ids: seq<ChallengeId>, ds: seq<Docker>)
    requires |ids| == |ds| > 0 && Keyed(w) && Separate(w.challenges) && FreshIds(w.challenges, ds)
    ensures var n := |ids| - 1;
            var w1 := RestartEach(w, ids[..n], ds[..n]);
            && FreshIds(w.challenges, ds[..n]) && w1.configs == w.configs && Separate(w1.challenges)
            && ds[n].containerId !in ContainerIds(w1.challenges)
  {
    var n := |ids| - 1;
    RestartsKeepConfigs(w, ids[..n], ds[..n]);
    RestartEachSeparate(w, ids[..n], ds[..n]);
    StillFresh(w.challenges, RestartEach(w, ids[..n], ds[..n]).challenges, ds);
  }

  lemma UntakenBefore(configs: map<ChallengeId, Config>, ids: seq<ChallengeId>, k: nat)
    requires k < |ids| - 1 && ids[k] in configs && NameUntaken(configs, ids, k)
    ensures var n := |ids| - 1;
            && NameUntaken(configs, ids[..n], k)
            && (ids[n] in configs ==> ContainerName(configs[ids[n]]) != ContainerName(configs[ids[k]]))
  {
  }

  /** The challenge's container is the one just started, running under the configured name. */
  ghost predicate RunsAs(w: Manager, id: ChallengeId, c: Config, d: Docker) {
    Up(w, id) && w.challenges[id].containerId == d.containerId && w.challenges[id].containerName == ContainerName(c)
  }

  lemma RestartRuns(w: Manager, id: ChallengeId, d: Docker)
    requires Keyed(w) && Separate(w.challenges) && d.containerId !in ContainerIds(w.challenges)
    ensures var (w', ok) := Restarting(w, id, d);
            ok ==> id in w.configs && RunsAs(w', id, w.configs[id], d)
  {
    if Restarting(w, id, d).1 {
      UpdatingUp(w, w.configs[id], d, id);
    }
  }

  lemma RestartLeaves(w: Manager, last: ChallengeId, d: Docker, id: ChallengeId, c: Config, d': Docker)
    requires Keyed(w) && Separate(w.challenges) && d.containerId !in ContainerIds(w.challenges) && last != id
    requires RunsAs(w, id, c, d') && (last in w.configs ==> ContainerName(w.configs[last]) != ContainerName(c))
    ensures RunsAs(Restarting(w, last, d).0, id, c, d')
  {
    if last in w.configs {
      UpdateLeavesUp(w, w.configs[last], d, id);
    }
  }

  /** The Docker calls an update makes all succeed; it stops and removes only a recorded instance. */
  predicate CallsSucceed(recorded: bool, d: Docker) {
    (recorded ==> d.stopOk && d.removeOk) && d.pullOk && d.startOk
  }

  lemma UpdateSucceedsExactly(w: Manager, c: Config, d: Docker)
    ensures Updating(w, c, d).1 <==> CallsSucceed(c.challengeId in w.challenges, d)
  {
  }

  /** A restart needs a configuration, not an instance. */
  lemma RestartSucceedsExactly(w: Manager, id: ChallengeId, d: Docker)
    requires Keyed(w)
    ensures Restarting(w, id, d).1 <==> id in w.configs && CallsSucceed(id in w.challenges, d)
    ensures id !in w.configs ==> Restarting(w, id, d).0 == w
  {
    if id in w.configs {
      UpdateSucceedsExactly(w, w.configs[id], d);
    }
  }

  lemma {:induction false} RestartsLeave(w: Manager, ids: seq<ChallengeId>, ds: seq<Docker>, id: ChallengeId)
    requires |ids| == |ds| && Keyed(w) && id !in ids
    ensures SameAt(w, RestartEach(w, ids, ds), id)
  {
    if ids == [] {
    } else {
      var n := |ids| - 1;
      var w1 := RestartEach(w, ids[..n], ds[..n]);
      RestartsLeave(w, ids[..n], ds[..n], id);
      RestartsKeepConfigs(w, ids[..n], ds[..n]);
      assert ids[n] in ids;
      if ids[n] in w1.configs {
        UpdatingAt(w1, w1.configs[ids[n]], ds[n], id);
      }
    }
  }

  /** In a loop of restarts each succeeds or fails by its own calls, whatever became of the others. */
  lemma {:induction false} RestartsAreIndependent(w: Manager, ids: seq<ChallengeId>, ds: seq<Docker>, k: nat)
    requires |ids| == |ds| && k < |ids| && Distinct(ids) && Keyed(w)
    ensures |RestartResults(w, ids, ds)| == |ids|
    ensures RestartResults(w, ids, ds)[k] == (ids[k], ids[k] in w.configs && CallsSucceed(ids[k] in w.challenges, ds[k]))
  {
    var n := |ids| - 1;
    ResultAt(w, ids, ds, k);
    if k == n {
      RestartsLeave(w, ids[..n], ds[..n], ids[n]);
      RestartsKeepConfigs(w, ids[..n], ds[..n]);
      RestartSucceedsExactly(RestartEach(w, ids[..n], ds[..n]), ids[n], ds[n]);
    } else {
      RestartsAreIndependent(w, ids[..n], ds[..n], k);
    }
  }

  lemma RemoveStepErrs(p: Progress, last: ChallengeId, d: Docker, id: ChallengeId)
    ensures var q := RemoveStep(p, last, d);
            id in q.result.errors <==>
            id in p.result.errors || (id == last && id in p.w.challenges && !(d.stopOk && d.removeOk))
  {
  }

  /** A stale challenge is among the errors if and only if its own stop or removal failed. */
  lemma {:induction false} StaleErrs(p: Progress, ids: seq<ChallengeId>, ds: seq<Docker>, k: nat)
    requires |ids| == |ds| && k < |ids| && Distinct(ids) && ids[k] !in p.result.errors
    ensures ids[k] in RemovePhase(p, ids, ds).result.errors <==>
            ids[k] in p.w.challenges && !(ds[k].stopOk && ds[k].removeOk)
  {
    var n := |ids| - 1;
    var q := RemovePhase(p, ids[..n], ds[..n]);
    RemoveStepErrs(q, ids[n], ds[n], ids[k]);
    if k == n {
      assert ids[n] !in ids[..n];
      RemovePhaseAt(p, ids[..n], ds[..n], ids[n]);
      OthersDoNotErr(p, ids[..n], ds[..n], ids[n]);
    } else {
      StaleErrs(p, ids[..n], ds[..n], k);
    }
  }

  lemma {:induction false} OthersDoNotErr(p: Progress, ids: seq<ChallengeId>, ds: seq<Docker>, id: ChallengeId)
    requires |ids| == |ds| && id !in ids
    ensures id in RemovePhase(p, ids, ds).result.errors <==> id in p.result.errors
  {
    if ids == [] {
    } else {
      var n := |ids| - 1;
      OthersDoNotErr(p, ids[..n], ds[..n], id);
      RemoveStepErrs(RemovePhase(p, ids[..n], ds[..n]), ids[n], ds[n], id);
      assert ids[n] in ids;
    }
  }

  lemma TargetStepErrs(p: Progress, current: set<ChallengeId>, c: Config, d: Docker, id: ChallengeId)
    ensures var q := TargetStep(p, current, c, d);
            id in q.result.errors <==>
            || id in p.result.errors
            || (id == c.challengeId && NeedsUpdate(p.w, c) && !CallsSucceed(id in p.w.challenges, d))
  {
    UpdateSucceedsExactly(p.w, c, d);
  }

  lemma {:induction false} NoTargetErrs(p: Progress, current: set<ChallengeId>, targets: seq<Config>, ds: seq<Docker>,
        id: ChallengeId)
    requires |targets| == |ds| && !HasId(targets, id)
    ensures var q := TargetPhase(p, current, targets, ds);
            SameAt(p.w, q.w, id) && (id in q.result.errors <==> id in p.result.errors)
  {
    if targets == [] {
    } else {
      var n := |targets| - 1;
      var q := TargetPhase(p, current, targets[..n], ds[..n]);
      NoTargetErrs(p, current, targets[..n], ds[..n], id);
      TargetStepErrs(q, current, targets[n], ds[n], id);
      UpdatingAt(q.w, targets[n], ds[n], id);
    }
  }

  lemma {:induction false} TargetErrs(p: Progress, current: set<ChallengeId>, targets: seq<Config>, ds: seq<Docker>, i: nat)
    requires |targets| == |ds| && i < |targets| && DistinctIds(targets) && targets[i].challengeId !in p.result.errors
    ensures targets[i].challengeId in TargetPhase(p, current, targets, ds).result.errors <==>
            NeedsUpdate(p.w, targets[i]) && !CallsSucceed(targets[i].challengeId in p.w.challenges, ds[i])
  {
    var n, id := |targets| - 1, targets[i].challengeId;
    var q := TargetPhase(p, current, targets[..n], ds[..n]);
    TargetStepErrs(q, current, targets[n], ds[n], id);
    if i == n {
      LacksId(targets[..n], id);
      NoTargetErrs(p, current, targets[..n], ds[..n], id);
    } else {
      TargetErrs(p, current, targets[..n], ds[..n], i);
    }
  }

  /**
   * Failures stay where they happen: a target is among the errors if and only if it has to be started and one
   * of its own Docker calls fails, and a stale challenge if and only if its own removal fails.
   */
  lemma SyncErrsExactly(w: Manager, targets: seq<Config>, stale: seq<ChallengeId>, ds: seq<Docker>, ds': seq<Docker>)
    requires ValidSync(w, targets, stale, ds, ds') && DistinctIds(targets)
    ensures forall i :: 0 <= i < |targets| ==>
                          (targets[i].challengeId in Syncing(w, targets, stale, ds, ds').result.errors <==>
                           NeedsUpdate(w, targets[i]) && !CallsSucceed(targets[i].challengeId in w.challenges, ds'[i]))
    ensures forall k :: 0 <= k < |stale| ==>
                          (stale[k] in Syncing(w, targets, stale, ds, ds').result.errors <==>
                           stale[k] in w.challenges && !(ds[k].stopOk && ds[k].removeOk))
  {
    var p := Progress(w, NO_CHANGES);
    var q := RemovePhase(p, stale, ds);
    forall i | 0 <= i < |targets|
      ensures targets[i].challengeId in Syncing(w, targets, stale, ds, ds').result.errors <==>
              NeedsUpdate(w, targets[i]) && !CallsSucceed(targets[i].challengeId in w.challenges, ds'[i])
    {
      IdAt(targets, i);
      HasIdIsMembership(targets, targets[i].challengeId);
      RemovePhaseAt(p, stale, ds, targets[i].challengeId);
      OthersDoNotErr(p, stale, ds, targets[i].challengeId);
      TargetErrs(q, w.configs.Keys, targets, ds', i);
    }
    forall k | 0 <= k < |stale|
      ensures stale[k] in Syncing(w, targets, stale, ds, ds').result.errors <==>
              stale[k] in w.challenges && !(ds[k].stopOk && ds[k].removeOk)
    {
      assert stale[k] in stale;
      HasIdIsMembership(targets, stale[k]);
      StaleErrs(p, stale, ds, k);
      NoTargetErrs(q, w.configs.Keys, targets, ds', stale[k]);
    }
  }

  lemma UpdatingKeyed(w: Manager, c: Config, d: Docker)
    requires Keyed(w)
    ensures Keyed(Updating(w, c, d).0)
  {
  }

  lemma {:induction false} PhaseKeyed(p: Progress, current: set<ChallengeId>, targets: seq<Config>, ds: seq<Docker>)
    requires |targets| == |ds| && Keyed(p.w)
    ensures Keyed(TargetPhase(p, current, targets, ds).w)
  {
    if targets == [] {
    } else {
      var n := |targets| - 1;
      PhaseKeyed(p, current, targets[..n], ds[..n]);
      UpdatingKeyed(TargetPhase(p, current, targets[..n], ds[..n]).w, targets[n], ds[n]);
    }
  }

  lemma {:induction false} RemovalsKeyed(w: Manager, ids: seq<ChallengeId>, ds: seq<Docker>)
    requires |ids| == |ds| && Keyed(w)
    ensures Keyed(RemoveEach(w, ids, ds))
  {
    if ids == [] {
    } else {
      RemovalsKeyed(w, ids[..|ids| - 1], ds[..|ids| - 1]);
    }
  }

  lemma {:induction false} RemovePhaseKeyed(p: Progress, ids: seq<ChallengeId>, ds: seq<Docker>)
    requires |ids| == |ds| && Keyed(p.w)
    ensures Keyed(RemovePhase(p, ids, ds).w)
  {
    if ids == [] {
    } else {
      RemovePhaseKeyed(p, ids[..|ids| - 1], ds[..|ids| - 1]);
    }
  }

  lemma ExecKeyed(w: Manager, op: Op)
    requires ValidOp(w, op) && Keyed(w)
    ensures Keyed(Exec(w, op))
  {
    match op
    case DoUpdate(c, d) => UpdatingKeyed(w, c, d);
    case DoRestart(id, d) =>
      if id in w.configs {
        UpdatingKeyed(w, w.configs[id], d);
      }
    case DoRestartUnhealthy(ids, ds) => RestartsKeepConfigs(w, ids, ds);
    case DoStopAll(ids, ds) => RemovalsKeyed(w, ids, ds);
    case DoSync(targets, stale, ds, ds') =>
      RemovePhaseKeyed(Progress(w, NO_CHANGES), stale, ds);
      PhaseKeyed(RemovePhase(Progress(w, NO_CHANGES), stale, ds), w.configs.Keys, targets, ds');
    case _ =>
  }

  /** Over every run each configuration is kept under its own challenge. */
  lemma {:induction false} RunKeyed(w: Manager, ops: seq<Op>)
    requires Keyed(w) && ValidRun(w, ops)
    ensures Keyed(Run(w, ops))
    decreases |ops|
  {
    if ops == [] {
    } else {
      ExecKeyed(w, ops[0]);
      RunKeyed(Exec(w, ops[0]), ops[1..]);
    }
  }
}
