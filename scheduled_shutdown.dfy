/**
 * The scheduled shutdown service. At a configured time of day it stops the
 * cluster's workloads: stage by stage when a shutdown order is configured,
 * otherwise every running workload that carries the safe-shutdown tag.
 * The clock reading of each check is a parameter; shutdown calls and waits
 * are recorded as `Action`s.
 */
module ScheduledShutdown {
  import opened Wrappers
  import opened Tags
  import opened Inventory

  // ----- time of day -----

  /** A `datetime.time` reduced to what the service reads. */
  datatype TimeOfDay = TimeOfDay(hour: int, minute: int)

  /** The range `datetime.time` accepts. */
  predicate ValidTime(t: TimeOfDay) {
    0 <= t.hour < 24 && 0 <= t.minute < 60
  }

  function MinuteOfDay(t: TimeOfDay): int {
    t.hour * 60 + t.minute
  }

  function Abs(x: int): nat {
    if x < 0 then -x else x
  }

  /** `_is_within_window`: the minutes of the day of the two times differ by at most `minutes`. */
  predicate IsWithinWindow(current: TimeOfDay, target: TimeOfDay, minutes: int) {
    Abs(MinuteOfDay(current) - MinuteOfDay(target)) <= minutes
  }

  /** The window is the interval of `minutes` minutes either side of the target. */
  lemma WindowBounds(current: TimeOfDay, target: TimeOfDay, minutes: int)
    ensures IsWithinWindow(current, target, minutes) <==>
      MinuteOfDay(target) - minutes <= MinuteOfDay(current) <= MinuteOfDay(target) + minutes
  {
  }

  lemma WindowSymmetric(a: TimeOfDay, b: TimeOfDay, minutes: int)
    ensures IsWithinWindow(a, b, minutes) == IsWithinWindow(b, a, minutes)
  {
  }

  lemma WindowReflexive(a: TimeOfDay, minutes: int)
    requires minutes >= 0
    ensures IsWithinWindow(a, a, minutes)
  {
  }

  /** Minutes are counted from midnight, so two times either side of midnight are far apart. */
  lemma WindowDoesNotWrapAtMidnight()
    ensures ValidTime(TimeOfDay(23, 58)) && ValidTime(TimeOfDay(0, 2))
    ensures !IsWithinWindow(TimeOfDay(23, 58), TimeOfDay(0, 2), WindowMinutes)
  {
  }

  // ----- configuration -----

  /** The `shutdown_time` entry: `hour` is required, `minute` defaults to 0. */
  datatype TimeEntry = TimeEntry(hour: Option<int>, minute: Option<int>)

  /** One element of `shutdown_order`; its `name` only appears in log messages. */
  datatype Stage = Stage(vmids: Option<seq<int>>, waitAfter: Option<int>)

  /** The service's configuration file; `None` is a key that is not present. */
  datatype ShutdownSettings = ShutdownSettings(
    enabled: Option<bool>,
    checkInterval: Option<int>,
    shutdownTime: Option<TimeEntry>,
    gracePeriod: Option<int>,
    excludedVms: Option<seq<int>>,
    shutdownOrder: Option<seq<Stage>>,
    safeTag: Option<string>)

  /** Exceptions that end one check: a bad `shutdown_time` entry, or a failing listing on the simple path. */
  datatype Fault = BadShutdownTime | ApiFailure

  const DefaultCheckInterval := 300
  const DefaultGracePeriod := 60
  const DefaultSafeTag := "safe-shutdown"
  const DefaultWaitAfter := 30
  /** The half-width of the shutdown window, in minutes. */
  const WindowMinutes := 5

  function Enabled(cfg: ShutdownSettings): bool { cfg.enabled.GetOr(false) }
  function CheckInterval(cfg: ShutdownSettings): int { cfg.checkInterval.GetOr(DefaultCheckInterval) }
  function GracePeriod(cfg: ShutdownSettings): int { cfg.gracePeriod.GetOr(DefaultGracePeriod) }
  function ExcludedVms(cfg: ShutdownSettings): seq<int> { cfg.excludedVms.GetOr([]) }
  function ShutdownOrder(cfg: ShutdownSettings): seq<Stage> { cfg.shutdownOrder.GetOr([]) }
  function SafeTag(cfg: ShutdownSettings): string { cfg.safeTag.GetOr(DefaultSafeTag) }
  function StageIds(st: Stage): seq<int> { st.vmids.GetOr([]) }
  function WaitAfter(st: Stage): int { st.waitAfter.GetOr(DefaultWaitAfter) }

  /**
   * The `shutdown_time` property: no entry means no time-based shutdown; an
   * entry without `hour` or outside the range of `datetime.time` raises.
   */
  function ShutdownTime(cfg: ShutdownSettings): (r: Result<Option<TimeOfDay>, Fault>)
    ensures r == Success(None) <==> cfg.shutdownTime.None?
    ensures r.Failure? <==> (
      && cfg.shutdownTime.Some?
      && (|| cfg.shutdownTime.value.hour.None?
          || !ValidTime(TimeOfDay(cfg.shutdownTime.value.hour.value, cfg.shutdownTime.value.minute.GetOr(0)))))
    ensures r.Success? && r.value.Some? ==> ValidTime(r.value.value)
    ensures r.Success? && r.value.Some? ==>
      r.value.value.hour == cfg.shutdownTime.value.hour.value &&
      r.value.value.minute == cfg.shutdownTime.value.minute.GetOr(0)
  {
    match cfg.shutdownTime
    case None => Success(None)
    case Some(entry) =>
      if entry.hour.None? then Failure(BadShutdownTime)
      else
        var t := TimeOfDay(entry.hour.value, entry.minute.GetOr(0));
        if ValidTime(t) then Success(Some(t)) else Failure(BadShutdownTime)
  }

  // ----- one workload -----

  /**
   * `_shutdown_vm_or_container`: the node and kind come from the caller or
   * else from `_find_vm_node`; a failed lookup is caught and logged, so
   * nothing is issued for that workload.
   */
  function ShutdownOne(api: Api, grace: int, vmid: int, at: Option<(string, Kind)>): (acts: seq<Action>)
    ensures |acts| <= 1
    ensures forall a :: a in acts ==> a.ShutdownWorkload? && a.vmid == vmid && a.timeout == grace
    ensures at.Some? ==> acts == [ShutdownWorkload(at.value.0, vmid, at.value.1, grace)]
  {
    var where: Result<(string, Kind), LookupError> := if at.Some? then Success(at.value) else Locate(api, vmid);
    if where.Failure? then [] else [ShutdownWorkload(where.value.0, vmid, where.value.1, grace)]
  }

  /**
   * Without a node from the caller, the workload is shut down on the node
   * and as the kind `_find_vm_node` reports, and not at all when the lookup
   * fails.
   */
  lemma ShutdownOneFollowsLookup(api: Api, grace: int, vmid: int)
    ensures Locate(api, vmid).Failure? ==> ShutdownOne(api, grace, vmid, None) == []
    ensures Locate(api, vmid).Success? ==> (
      ShutdownOne(api, grace, vmid, None) ==
        [ShutdownWorkload(Locate(api, vmid).value.0, vmid, Locate(api, vmid).value.1, grace)])
  {
  }

  // ----- the ordered path -----

  /**
   * The shutdowns of one stage: its ids in order, excluded ids skipped, each
   * looked up on its own.
   */
  function StageShutdowns(api: Api, grace: int, excluded: seq<int>, vmids: seq<int>): (acts: seq<Action>)
    ensures forall a :: a in acts ==>
      a.ShutdownWorkload? && a.vmid in vmids && a.vmid !in excluded && a.timeout == grace
  {
    if vmids == [] then []
    else
      var init, v := vmids[..|vmids| - 1], vmids[|vmids| - 1];
      assert vmids == init + [v];
      StageShutdowns(api, grace, excluded, init) + (if v in excluded then [] else ShutdownOne(api, grace, v, None))
  }

  lemma StageShutdownsStep(api: Api, grace: int, excluded: seq<int>, vmids: seq<int>, j: nat)
    requires j < |vmids|
    ensures StageShutdowns(api, grace, excluded, vmids[..j + 1]) ==
      StageShutdowns(api, grace, excluded, vmids[..j]) +
      (if vmids[j] in excluded then [] else ShutdownOne(api, grace, vmids[j], None))
  {
    assert vmids[..j + 1][..j] == vmids[..j];
  }

  /** One stage: its shutdowns, then the wait after it. */
  function StageTrace(api: Api, cfg: ShutdownSettings, st: Stage): seq<Action> {
    StageShutdowns(api, GracePeriod(cfg), ExcludedVms(cfg), StageIds(st)) + [Sleep(WaitAfter(st))]
  }

  /** `_ordered_shutdown`: the stages one after the other, each followed by its wait, the last one included. */
  function OrderedTrace(api: Api, cfg: ShutdownSettings, stages: seq<Stage>): (trace: seq<Action>)
    ensures forall a :: a in trace ==>
      (a.ShutdownWorkload? && a.vmid !in ExcludedVms(cfg) && a.timeout == GracePeriod(cfg)) || a.Sleep?
    ensures stages != [] ==> trace != [] && trace[|trace| - 1] == Sleep(WaitAfter(stages[|stages| - 1]))
  {
    if stages == [] then []
    else OrderedTrace(api, cfg, stages[..|stages| - 1]) + StageTrace(api, cfg, stages[|stages| - 1])
  }

  lemma OrderedTraceStep(api: Api, cfg: ShutdownSettings, stages: seq<Stage>, i: nat)
    requires i < |stages|
    ensures OrderedTrace(api, cfg, stages[..i + 1]) == OrderedTrace(api, cfg, stages[..i]) + StageTrace(api, cfg, stages[i])
  {
    assert stages[..i + 1][..i] == stages[..i];
  }

  /** The waits of a trace, in order. */
  function SleepsOf(trace: seq<Action>): seq<int> {
    if trace == [] then []
    else
      var last := trace[|trace| - 1];
      SleepsOf(trace[..|trace| - 1]) + (if last.Sleep? then [last.seconds] else [])
  }

  /** The configured waits of the stages, the default filled in. */
  function Waits(stages: seq<Stage>): seq<int> {
    seq(|stages|, i requires 0 <= i < |stages| => WaitAfter(stages[i]))
  }

  lemma {:induction false} SleepsOfAppend(a: seq<Action>, b: seq<Action>)
    ensures SleepsOf(a + b) == SleepsOf(a) + SleepsOf(b)
    decreases |b|
  {
    if b == [] {
      assert a + b == a;
    } else {
      var init, last := b[..|b| - 1], b[|b| - 1];
      assert (a + b)[..|a + b| - 1] == a + init;
      assert (a + b)[|a + b| - 1] == last;
      SleepsOfAppend(a, init);
    }
  }

  lemma {:induction false} NoSleeps(trace: seq<Action>)
    requires forall a :: a in trace ==> !a.Sleep?
    ensures SleepsOf(trace) == []
    decreases |trace|
  {
    if trace != [] {
      var init := trace[..|trace| - 1];
      assert forall a :: a in init ==> a in trace;
      NoSleeps(init);
    }
  }

  /** A block of calls without waits, followed by one wait, adds exactly that wait. */
  lemma SleepsOfBlockAndWait(before: seq<Action>, shut: seq<Action>, w: int)
    requires forall a :: a in shut ==> !a.Sleep?
    ensures SleepsOf(before + (shut + [Sleep(w)])) == SleepsOf(before) + [w]
  {
    var wait := [Sleep(w)];
    assert SleepsOf(wait) == [w] by {
      assert wait[..0] == [];
    }
    NoSleeps(shut);
    SleepsOfAppend(before, shut + wait);
    SleepsOfAppend(shut, wait);
  }

  /** Every stage, the last and the empty ones included, contributes exactly its wait, in stage order. */
  lemma {:induction false} OrderedSleeps(api: Api, cfg: ShutdownSettings, stages: seq<Stage>)
    ensures SleepsOf(OrderedTrace(api, cfg, stages)) == Waits(stages)
    decreases |stages|
  {
    if stages != [] {
      var init, st := stages[..|stages| - 1], stages[|stages| - 1];
      var shut := StageShutdowns(api, GracePeriod(cfg), ExcludedVms(cfg), StageIds(st));
      assert OrderedTrace(api, cfg, stages) == OrderedTrace(api, cfg, init) + (shut + [Sleep(WaitAfter(st))]);
      SleepsOfBlockAndWait(OrderedTrace(api, cfg, init), shut, WaitAfter(st));
      OrderedSleeps(api, cfg, init);
    }
  }

  /** The blocks one after the other. */
  function Concat(blocks: seq<seq<Action>>): seq<Action> {
    if blocks == [] then [] else Concat(blocks[..|blocks| - 1]) + blocks[|blocks| - 1]
  }

  /** A stage's actions: shutdowns and then exactly one wait, at the end. */
  predicate IsStageBlock(b: seq<Action>) {
    b != [] && b[|b| - 1].Sleep? && forall i :: 0 <= i < |b| - 1 ==> !b[i].Sleep?
  }

  function StageBlocks(api: Api, cfg: ShutdownSettings, stages: seq<Stage>): seq<seq<Action>> {
    seq(|stages|, i requires 0 <= i < |stages| => StageTrace(api, cfg, stages[i]))
  }

  lemma {:induction false} OrderedTraceIsConcat(api: Api, cfg: ShutdownSettings, stages: seq<Stage>)
    ensures OrderedTrace(api, cfg, stages) == Concat(StageBlocks(api, cfg, stages))
    decreases |stages|
  {
    if stages != [] {
      var init := stages[..|stages| - 1];
      OrderedTraceIsConcat(api, cfg, init);
      assert StageBlocks(api, cfg, stages)[..|stages| - 1] == StageBlocks(api, cfg, init);
    }
  }

  lemma StageTraceIsBlock(api: Api, cfg: ShutdownSettings, st: Stage)
    ensures IsStageBlock(StageTrace(api, cfg, st))
  {
    var shut := StageShutdowns(api, GracePeriod(cfg), ExcludedVms(cfg), StageIds(st));
    assert forall i :: 0 <= i < |shut| ==> shut[i] in shut;
  }

  /** Every block is a stage block and each contributes one wait. */
  lemma {:induction false} SleepsOfBlocks(blocks: seq<seq<Action>>)
    requires forall i :: 0 <= i < |blocks| ==> IsStageBlock(blocks[i])
    ensures |SleepsOf(Concat(blocks))| == |blocks|
    decreases |blocks|
  {
    if blocks != [] {
      var init, b := blocks[..|blocks| - 1], blocks[|blocks| - 1];
      SleepsOfBlocks(init);
      SleepsOfAppend(Concat(init), b);
      SleepsInBlock(b, |b| - 1);
      SleepsOfAppend(b[..|b| - 1], [b[|b| - 1]]);
      assert b[..|b| - 1] + [b[|b| - 1]] == b;
    }
  }

  /** Inside a stage block, no wait precedes a position before the last. */
  lemma SleepsInBlock(b: seq<Action>, q: nat)
    requires IsStageBlock(b) && q < |b|
    ensures SleepsOf(b[..q]) == []
  {
    assert forall a :: a in b[..q] ==> !a.Sleep?;
    NoSleeps(b[..q]);
  }

  /** A position that is not a wait lies in the block whose index is the number of waits before it. */
  lemma {:induction false} BlockOfPosition(blocks: seq<seq<Action>>, p: nat)
    requires forall i :: 0 <= i < |blocks| ==> IsStageBlock(blocks[i])
    requires p < |Concat(blocks)| && !Concat(blocks)[p].Sleep?
    ensures var k := |SleepsOf(Concat(blocks)[..p])|; k < |blocks| && Concat(blocks)[p] in blocks[k]
    decreases |blocks|
  {
    var init, b := blocks[..|blocks| - 1], blocks[|blocks| - 1];
    var before := Concat(init);
    assert Concat(blocks) == before + b;
    if p < |before| {
      assert Concat(blocks)[..p] == before[..p];
      BlockOfPosition(init, p);
      assert init[|SleepsOf(before[..p])|] == blocks[|SleepsOf(before[..p])|];
    } else {
      var q := p - |before|;
      assert Concat(blocks)[..p] == before + b[..q];
      SleepsOfAppend(before, b[..q]);
      SleepsInBlock(b, q);
      SleepsOfBlocks(init);
      assert Concat(blocks)[p] == b[q];
    }
  }

  /** Each position of each block appears in the whole after exactly the waits of the earlier blocks. */
  lemma {:induction false} PositionOfBlock(blocks: seq<seq<Action>>, k: nat, q: nat) returns (p: nat)
    requires forall i :: 0 <= i < |blocks| ==> IsStageBlock(blocks[i])
    requires k < |blocks| && q < |blocks[k]|
    ensures p < |Concat(blocks)| && Concat(blocks)[p] == blocks[k][q] && |SleepsOf(Concat(blocks)[..p])| == k
    decreases |blocks|
  {
    var init, b := blocks[..|blocks| - 1], blocks[|blocks| - 1];
    var before := Concat(init);
    assert Concat(blocks) == before + b;
    if k < |init| {
      assert init[k] == blocks[k];
      p := PositionOfBlock(init, k, q);
      assert Concat(blocks)[..p] == before[..p];
      assert Concat(blocks)[p] == before[p];
    } else {
      p := |before| + q;
      assert Concat(blocks)[..p] == before + b[..q];
      SleepsOfAppend(before, b[..q]);
      SleepsInBlock(b, q);
      SleepsOfBlocks(init);
      assert Concat(blocks)[p] == b[q];
    }
  }

  /**
   * Stage order: a shutdown preceded by `k` waits belongs to stage `k`, so
   * nothing of a later stage is issued before the earlier stages' waits.
   */
  lemma ShutdownBelongsToStage(api: Api, cfg: ShutdownSettings, stages: seq<Stage>, p: nat)
    requires p < |OrderedTrace(api, cfg, stages)|
    requires OrderedTrace(api, cfg, stages)[p].ShutdownWorkload?
    ensures var trace := OrderedTrace(api, cfg, stages);
      var k := |SleepsOf(trace[..p])|;
      k < |stages| && trace[p].vmid in StageIds(stages[k]) && trace[p].vmid !in ExcludedVms(cfg)
  {
    var blocks := StageBlocks(api, cfg, stages);
    OrderedTraceIsConcat(api, cfg, stages);
    forall i | 0 <= i < |blocks| ensures IsStageBlock(blocks[i]) {
      StageTraceIsBlock(api, cfg, stages[i]);
    }
    BlockOfPosition(blocks, p);
    var k := |SleepsOf(Concat(blocks)[..p])|;
    var a := Concat(blocks)[p];
    var shut := StageShutdowns(api, GracePeriod(cfg), ExcludedVms(cfg), StageIds(stages[k]));
    assert a in shut + [Sleep(WaitAfter(stages[k]))];
    assert a in shut;
  }

  /**
   * A failed lookup does not stop the rest: every listed, non-excluded id
   * that the cluster holds is shut down in its own stage, after exactly the
   * waits of the stages before it.
   */
  lemma FoundTargetsAreShutDown(api: Api, cfg: ShutdownSettings, stages: seq<Stage>, k: nat, v: int)
    requires k < |stages| && v in StageIds(stages[k]) && v !in ExcludedVms(cfg)
    requires Locate(api, v).Success?
    ensures var trace := OrderedTrace(api, cfg, stages);
      exists p :: 0 <= p < |trace| &&
        trace[p] == ShutdownWorkload(Locate(api, v).value.0, v, Locate(api, v).value.1, GracePeriod(cfg)) &&
        |SleepsOf(trace[..p])| == k
  {
    var blocks := StageBlocks(api, cfg, stages);
    OrderedTraceIsConcat(api, cfg, stages);
    forall i | 0 <= i < |blocks| ensures IsStageBlock(blocks[i]) {
      StageTraceIsBlock(api, cfg, stages[i]);
    }
    var shut := StageShutdowns(api, GracePeriod(cfg), ExcludedVms(cfg), StageIds(stages[k]));
    StageShutdownsComplete(api, GracePeriod(cfg), ExcludedVms(cfg), StageIds(stages[k]), v);
    var q :| 0 <= q < |shut| && shut[q] == ShutdownWorkload(Locate(api, v).value.0, v, Locate(api, v).value.1, GracePeriod(cfg));
    assert blocks[k][q] == shut[q];
    var p := PositionOfBlock(blocks, k, q);
    assert OrderedTrace(api, cfg, stages)[p] == shut[q];
  }

  /** Every id of `vmids` that is not excluded and that the lookup finds gets its shutdown. */
  lemma {:induction false} StageShutdownsComplete(api: Api, grace: int, excluded: seq<int>, vmids: seq<int>, v: int)
    requires v in vmids && v !in excluded && Locate(api, v).Success?
    ensures ShutdownWorkload(Locate(api, v).value.0, v, Locate(api, v).value.1, grace)
      in StageShutdowns(api, grace, excluded, vmids)
    decreases |vmids|
  {
    var init, last := vmids[..|vmids| - 1], vmids[|vmids| - 1];
    assert vmids == init + [last];
    if last != v {
      StageShutdownsComplete(api, grace, excluded, init, v);
    } else {
      ShutdownOneFollowsLookup(api, grace, v);
    }
  }

  // ----- the simple path -----

  /** `_should_shutdown`: running, not excluded, and tagged with the safe-shutdown tag. */
  predicate ShouldShutdown(cfg: ShutdownSettings, g: Guest) {
    IsRunning(g) && g.vmid !in ExcludedVms(cfg) && HasTag(g.config, SafeTag(cfg))
  }

  function ShutdownFilter(cfg: ShutdownSettings): Guest -> bool {
    g => ShouldShutdown(cfg, g)
  }

  /** The shutdowns `_simple_shutdown` collects for one node: its VMs, then its containers. */
  function NodePlan(api: Api, cfg: ShutdownSettings, name: string): Result<seq<Action>, Fault> {
    var h := HostOf(api, name);
    if !Listable(h) then Failure(ApiFailure)
    else
      Success(ShutdownsOn(name, Vm, Filter(h.vms.value, ShutdownFilter(cfg)), GracePeriod(cfg)) +
              ShutdownsOn(name, Container, Filter(h.containers.value, ShutdownFilter(cfg)), GracePeriod(cfg)))
  }

  /**
   * The shutdowns of `_simple_shutdown` over the nodes `names`. The
   * shutdowns only start once every listing has been read, so one failing
   * listing means none is issued.
   */
  function SimpleIn(api: Api, cfg: ShutdownSettings, names: seq<string>): Result<seq<Action>, Fault> {
    if names == [] then Success([])
    else
      var init, last := names[..|names| - 1], names[|names| - 1];
      var before := SimpleIn(api, cfg, init);
      var here := NodePlan(api, cfg, last);
      if before.Failure? || here.Failure? then Failure(ApiFailure) else Success(before.value + here.value)
  }

  lemma SimpleInStep(api: Api, cfg: ShutdownSettings, names: seq<string>, i: nat)
    requires i < |names|
    ensures var before, here := SimpleIn(api, cfg, names[..i]), NodePlan(api, cfg, names[i]);
      SimpleIn(api, cfg, names[..i + 1]) ==
        if before.Failure? || here.Failure? then Failure(ApiFailure) else Success(before.value + here.value)
  {
    assert names[..i + 1][..i] == names[..i];
  }

  /** A successful plan is the plan of all nodes but the last, followed by the last node's. */
  lemma SimpleInSplit(api: Api, cfg: ShutdownSettings, names: seq<string>)
    requires names != [] && SimpleIn(api, cfg, names).Success?
    ensures var before, here := SimpleIn(api, cfg, names[..|names| - 1]), NodePlan(api, cfg, names[|names| - 1]);
      && before.Success? && here.Success?
      && SimpleIn(api, cfg, names).value == before.value + here.value
  {
  }

  function SimplePlan(api: Api, cfg: ShutdownSettings): Result<seq<Action>, Fault> {
    match api.nodeNames
    case None => Failure(ApiFailure)
    case Some(names) => SimpleIn(api, cfg, names)
  }

  /** The shutdowns planned for one node are of listed guests that `_should_shutdown` accepts. */
  lemma NodePlanSelected(api: Api, cfg: ShutdownSettings, name: string, a: Action)
    requires NodePlan(api, cfg, name).Success? && a in NodePlan(api, cfg, name).value
    ensures && a.ShutdownWorkload? && a.node == name && a.timeout == GracePeriod(cfg)
            && exists g :: g in Listed(HostOf(api, name), a.kind) && g.vmid == a.vmid && ShouldShutdown(cfg, g)
  {
    var h := HostOf(api, name);
    var vms := Filter(h.vms.value, ShutdownFilter(cfg));
    var cts := Filter(h.containers.value, ShutdownFilter(cfg));
    var onVms := ShutdownsOn(name, Vm, vms, GracePeriod(cfg));
    var onCts := ShutdownsOn(name, Container, cts, GracePeriod(cfg));
    if a in onVms {
      var i :| 0 <= i < |vms| && onVms[i] == a;
      assert vms[i] in vms;
    } else {
      assert a in onCts;
      var i :| 0 <= i < |cts| && onCts[i] == a;
      assert cts[i] in cts;
    }
  }

  /** Every listed guest of the node that `_should_shutdown` accepts has its shutdown planned. */
  lemma NodePlanComplete(api: Api, cfg: ShutdownSettings, name: string, k: Kind, g: Guest)
    requires NodePlan(api, cfg, name).Success?
    requires g in Listed(HostOf(api, name), k) && ShouldShutdown(cfg, g)
    ensures ShutdownWorkload(name, g.vmid, k, GracePeriod(cfg)) in NodePlan(api, cfg, name).value
  {
    var h := HostOf(api, name);
    assert ShutdownFilter(cfg)(g);
    if k == Vm {
      var vms := Filter(h.vms.value, ShutdownFilter(cfg));
      var j :| 0 <= j < |vms| && vms[j] == g;
      assert ShutdownsOn(name, Vm, vms, GracePeriod(cfg))[j] == ShutdownWorkload(name, g.vmid, k, GracePeriod(cfg));
    } else {
      var cts := Filter(h.containers.value, ShutdownFilter(cfg));
      var j :| 0 <= j < |cts| && cts[j] == g;
      assert ShutdownsOn(name, Container, cts, GracePeriod(cfg))[j] == ShutdownWorkload(name, g.vmid, k, GracePeriod(cfg));
    }
  }

  /** Everything the simple path shuts down is a listed guest that `_should_shutdown` accepts. */
  lemma {:induction false} SimpleActionsAreSelected(api: Api, cfg: ShutdownSettings, names: seq<string>, a: Action)
    requires SimpleIn(api, cfg, names).Success? && a in SimpleIn(api, cfg, names).value
    ensures && a.ShutdownWorkload? && a.node in names && a.timeout == GracePeriod(cfg)
            && exists g :: g in Listed(HostOf(api, a.node), a.kind) && g.vmid == a.vmid && ShouldShutdown(cfg, g)
    decreases |names|
  {
    var init, last := names[..|names| - 1], names[|names| - 1];
    assert names == init + [last];
    var before := SimpleIn(api, cfg, init);
    SimpleInSplit(api, cfg, names);
    if a in before.value {
      SimpleActionsAreSelected(api, cfg, init, a);
    } else {
      NodePlanSelected(api, cfg, last, a);
    }
  }

  /** The simple path fails exactly when some node's listings cannot be read. */
  lemma {:induction false} SimpleInFailure(api: Api, cfg: ShutdownSettings, names: seq<string>)
    ensures SimpleIn(api, cfg, names).Failure? <==> exists i :: 0 <= i < |names| && !Listable(HostOf(api, names[i]))
    decreases |names|
  {
    if names != [] {
      var init := names[..|names| - 1];
      assert forall i :: 0 <= i < |init| ==> init[i] == names[i];
      SimpleInFailure(api, cfg, init);
    }
  }

  /** The plan of each node is part of the plan of all nodes. */
  lemma {:induction false} NodePlanIncluded(api: Api, cfg: ShutdownSettings, names: seq<string>, i: nat, a: Action)
    requires SimpleIn(api, cfg, names).Success? && i < |names|
    ensures NodePlan(api, cfg, names[i]).Success?
    ensures a in NodePlan(api, cfg, names[i]).value ==> a in SimpleIn(api, cfg, names).value
    decreases |names|
  {
    var init := names[..|names| - 1];
    SimpleInSplit(api, cfg, names);
    if i < |init| {
      assert init[i] == names[i];
      NodePlanIncluded(api, cfg, init, i, a);
    }
  }

  /** Every listed guest that `_should_shutdown` accepts is shut down on its node. */
  lemma SimpleSelectsAllTagged(api: Api, cfg: ShutdownSettings, names: seq<string>, i: nat, k: Kind, g: Guest)
    requires SimpleIn(api, cfg, names).Success?
    requires i < |names| && g in Listed(HostOf(api, names[i]), k) && ShouldShutdown(cfg, g)
    ensures ShutdownWorkload(names[i], g.vmid, k, GracePeriod(cfg)) in SimpleIn(api, cfg, names).value
  {
    NodePlanIncluded(api, cfg, names, i, ShutdownWorkload(names[i], g.vmid, k, GracePeriod(cfg)));
    NodePlanComplete(api, cfg, names[i], k, g);
  }

  // ----- one check -----

  /** `shutdown_all`: the ordered path iff a shutdown order is configured. */
  function ShutdownAllOutcome(api: Api, cfg: ShutdownSettings): (r: Result<seq<Action>, Fault>)
    ensures ShutdownOrder(cfg) != [] ==> r == Success(OrderedTrace(api, cfg, ShutdownOrder(cfg)))
    ensures ShutdownOrder(cfg) == [] ==> r == SimplePlan(api, cfg)
  {
    if ShutdownOrder(cfg) != [] then Success(OrderedTrace(api, cfg, ShutdownOrder(cfg)))
    else SimplePlan(api, cfg)
  }

  /**
   * `check_and_shutdown` at clock reading `now`: a disabled service or one
   * without a shutdown time does nothing; otherwise everything is shut down
   * whenever `now` is within the window around the shutdown time.
   */
  function CheckOutcome(api: Api, cfg: ShutdownSettings, now: TimeOfDay): Result<seq<Action>, Fault>
  {
    if !Enabled(cfg) then Success([])
    else match ShutdownTime(cfg)
      case Failure(e) => Failure(e)
      case Success(None) => Success([])
      case Success(Some(t)) =>
        if IsWithinWindow(now, t, WindowMinutes) then ShutdownAllOutcome(api, cfg) else Success([])
  }

  /**
   * The gate of `check_and_shutdown`: a disabled service or one without a
   * shutdown time does nothing; an enabled one shuts everything down exactly
   * when `now` is within the window around the shutdown time.
   */
  lemma CheckGate(api: Api, cfg: ShutdownSettings, now: TimeOfDay)
    ensures !Enabled(cfg) ==> CheckOutcome(api, cfg, now) == Success([])
    ensures cfg.shutdownTime.None? ==> CheckOutcome(api, cfg, now) == Success([])
    ensures CheckOutcome(api, cfg, now).Success? && CheckOutcome(api, cfg, now).value != [] ==> (
      && Enabled(cfg) && ShutdownTime(cfg).Success? && ShutdownTime(cfg).value.Some?
      && IsWithinWindow(now, ShutdownTime(cfg).value.value, WindowMinutes))
    ensures (
      && Enabled(cfg) && ShutdownTime(cfg).Success? && ShutdownTime(cfg).value.Some?
      && IsWithinWindow(now, ShutdownTime(cfg).value.value, WindowMinutes)) ==>
      CheckOutcome(api, cfg, now) == ShutdownAllOutcome(api, cfg)
    ensures CheckOutcome(api, cfg, now) == Failure(BadShutdownTime) <==> Enabled(cfg) && ShutdownTime(cfg).Failure?
  {
  }

  /** Everything a check issues spares the excluded ids. */
  lemma CheckSparesExcluded(api: Api, cfg: ShutdownSettings, now: TimeOfDay, a: Action)
    requires CheckOutcome(api, cfg, now).Success? && a in CheckOutcome(api, cfg, now).value
    ensures a.ShutdownWorkload? ==> a.vmid !in ExcludedVms(cfg)
  {
    if ShutdownOrder(cfg) == [] && a in CheckOutcome(api, cfg, now).value {
      SimpleActionsAreSelected(api, cfg, api.nodeNames.value, a);
    }
  }

  // ----- the service loop -----

  /** What one iteration of `run` sees: the cluster and the clock. */
  datatype Tick = Tick(api: Api, now: TimeOfDay)

  /** One iteration of `run`: the check (an exception is logged and issues nothing), then the wait. */
  function TickActions(cfg: ShutdownSettings, t: Tick): seq<Action> {
    var r := CheckOutcome(t.api, cfg, t.now);
    (if r.Success? then r.value else []) + [Sleep(CheckInterval(cfg))]
  }

  function RunTrace(cfg: ShutdownSettings, ticks: seq<Tick>): seq<Action> {
    if ticks == [] then []
    else RunTrace(cfg, ticks[..|ticks| - 1]) + TickActions(cfg, ticks[|ticks| - 1])
  }

  /** Every iteration ends with the `check_interval` wait, whether the check shut things down, did nothing or raised. */
  lemma TickEndsWithWait(cfg: ShutdownSettings, t: Tick)
    ensures TickActions(cfg, t) != [] && TickActions(cfg, t)[|TickActions(cfg, t)| - 1] == Sleep(CheckInterval(cfg))
  {
  }

  lemma RunTraceStep(cfg: ShutdownSettings, ticks: seq<Tick>, i: nat)
    requires i < |ticks|
    ensures RunTrace(cfg, ticks[..i + 1]) == RunTrace(cfg, ticks[..i]) + TickActions(cfg, ticks[i])
  {
    assert ticks[..i + 1][..i] == ticks[..i];
  }

  /** A disabled service only waits. */
  lemma {:induction false} DisabledServiceOnlySleeps(cfg: ShutdownSettings, ticks: seq<Tick>)
    requires !Enabled(cfg)
    ensures RunTrace(cfg, ticks) == seq(|ticks|, _ => Sleep(CheckInterval(cfg)))
    decreases |ticks|
  {
    if ticks != [] {
      DisabledServiceOnlySleeps(cfg, ticks[..|ticks| - 1]);
    }
  }

  /** No excluded id is ever shut down, whatever the clock and the cluster do. */
  lemma {:induction false} ExcludedNeverShutDown(cfg: ShutdownSettings, ticks: seq<Tick>)
    ensures forall a :: a in RunTrace(cfg, ticks) && a.ShutdownWorkload? ==> a.vmid !in ExcludedVms(cfg)
    decreases |ticks|
  {
    if ticks != [] {
      var t := ticks[|ticks| - 1];
      ExcludedNeverShutDown(cfg, ticks[..|ticks| - 1]);
      var r := CheckOutcome(t.api, cfg, t.now);
      if r.Success? {
        forall a | a in r.value && a.ShutdownWorkload? ensures a.vmid !in ExcludedVms(cfg) {
          CheckSparesExcluded(t.api, cfg, t.now, a);
        }
      }
    }
  }

  /**
   * There is no "already done today" state: two checks inside the same
   * window both run the whole shutdown.
   */
  lemma FiresOnEveryTickInWindow(cfg: ShutdownSettings, api: Api, now1: TimeOfDay, now2: TimeOfDay)
    requires Enabled(cfg) && ShutdownTime(cfg).Success? && ShutdownTime(cfg).value.Some?
    requires IsWithinWindow(now1, ShutdownTime(cfg).value.value, WindowMinutes)
    requires IsWithinWindow(now2, ShutdownTime(cfg).value.value, WindowMinutes)
    requires ShutdownAllOutcome(api, cfg).Success?
    ensures var once := ShutdownAllOutcome(api, cfg).value;
      RunTrace(cfg, [Tick(api, now1), Tick(api, now2)]) ==
        once + [Sleep(CheckInterval(cfg))] + once + [Sleep(CheckInterval(cfg))]
  {
    var ticks := [Tick(api, now1), Tick(api, now2)];
    assert ticks[..1][..0] == [];
    assert RunTrace(cfg, ticks[..1]) == TickActions(cfg, Tick(api, now1));
  }

  /** The shutdown service: a `running` flag and the actions it has issued. */
  class ShutdownService {
    const config: ShutdownSettings
    var running: bool
    var trace: seq<Action>

    constructor(config: ShutdownSettings)
      ensures this.config == config && !running && trace == []
    {
      this.config := config;
      running := false;
      trace := [];
    }

    /** `_shutdown_vm_or_container`, looking the workload up when the caller gives no node. */
    method ShutdownVmOrContainer(api: Api, vmid: int, at: Option<(string, Kind)>) returns (acts: seq<Action>)
      ensures acts == ShutdownOne(api, GracePeriod(config), vmid, at)
    {
      var where := at;
      if at.None? {
        var found := FindVmNode(api, vmid);
        if found.Failure? {
          return [];
        }
        where := Some(found.value);
      }
      acts := [ShutdownWorkload(where.value.0, vmid, where.value.1, GracePeriod(config))];
    }

    /** What `_ordered_shutdown` gathers for one stage: one per id that is not excluded. */
    method StageTasks(api: Api, vmids: seq<int>) returns (tasks: seq<Action>)
      ensures tasks == StageShutdowns(api, GracePeriod(config), ExcludedVms(config), vmids)
    {
      tasks := [];
      for j := 0 to |vmids|
        invariant tasks == StageShutdowns(api, GracePeriod(config), ExcludedVms(config), vmids[..j])
      {
        StageShutdownsStep(api, GracePeriod(config), ExcludedVms(config), vmids, j);
        if vmids[j] !in ExcludedVms(config) {
          var one := ShutdownVmOrContainer(api, vmids[j], None);
          tasks := tasks + one;
        }
      }
      assert vmids[..|vmids|] == vmids;
    }

    /** `_ordered_shutdown`. */
    method OrderedShutdown(api: Api) returns (acts: seq<Action>)
      ensures acts == OrderedTrace(api, config, ShutdownOrder(config))
    {
      var stages := ShutdownOrder(config);
      acts := [];
      for i := 0 to |stages|
        invariant acts == OrderedTrace(api, config, stages[..i])
      {
        OrderedTraceStep(api, config, stages, i);
        var tasks := StageTasks(api, StageIds(stages[i]));
        acts := acts + tasks + [Sleep(WaitAfter(stages[i]))];
      }
      assert stages[..|stages|] == stages;
    }

    /** `_simple_shutdown`: lists every node, then shuts the selected guests down. */
    method SimpleShutdown(api: Api) returns (r: Result<seq<Action>, Fault>)
      ensures r == SimplePlan(api, config)
    {
      if api.nodeNames.None? {
        return Failure(ApiFailure);
      }
      var names := api.nodeNames.value;
      var tasks := [];
      for i := 0 to |names|
        invariant SimpleIn(api, config, names[..i]) == Success(tasks)
      {
        SimpleInStep(api, config, names, i);
        var h := HostOf(api, names[i]);
        if h.vms.None? || h.containers.None? {
          SimpleInFailure(api, config, names);
          assert !Listable(HostOf(api, names[i]));
          return Failure(ApiFailure);
        }
        var vms := SelectGuests(h.vms.value, ShutdownFilter(config));
        var cts := SelectGuests(h.containers.value, ShutdownFilter(config));
        tasks := tasks + (ShutdownsOn(names[i], Vm, vms, GracePeriod(config)) +
                          ShutdownsOn(names[i], Container, cts, GracePeriod(config)));
      }
      assert names[..|names|] == names;
      return Success(tasks);
    }

    /** `shutdown_all`. */
    method ShutdownAll(api: Api) returns (r: Result<seq<Action>, Fault>)
      ensures r == ShutdownAllOutcome(api, config)
    {
      if ShutdownOrder(config) != [] {
        var acts := OrderedShutdown(api);
        r := Success(acts);
      } else {
        r := SimpleShutdown(api);
      }
    }

    /** `check_and_shutdown`. */
    method CheckAndShutdown(api: Api, now: TimeOfDay) returns (r: Result<seq<Action>, Fault>)
      ensures r == CheckOutcome(api, config, now)
    {
      if !Enabled(config) {
        return Success([]);
      }
      var time := ShutdownTime(config);
      if time.Failure? {
        return Failure(time.error);
      }
      if time.value.Some? && IsWithinWindow(now, time.value.value, WindowMinutes) {
        r := ShutdownAll(api);
      } else {
        r := Success([]);
      }
    }

    /** The body of the `run` loop: the check, then the wait, whether the check issued shutdowns or raised. */
    method Iteration(t: Tick) returns (acts: seq<Action>)
      ensures acts == TickActions(config, t)
    {
      var r := CheckAndShutdown(t.api, t.now);
      // an exception from the check is logged and the loop goes on to its wait
      var issued := if r.Success? then r.value else [];
      acts := issued + [Sleep(CheckInterval(config))];
    }

    /**
     * `run`: one iteration per element of `ticks`. Nothing inside the loop
     * clears `running`; `Stop` is only called from outside.
     */
    method Run(ticks: seq<Tick>)
      modifies this
      ensures running
      ensures trace == old(trace) + RunTrace(config, ticks)
    {
      running := true;
      var start := trace;
      var i := 0;
      while running && i < |ticks|
        invariant 0 <= i <= |ticks|
        invariant running
        invariant trace == start + RunTrace(config, ticks[..i])
      {
        var acts := Iteration(ticks[i]);
        RunTraceStep(config, ticks, i);
        assert start + RunTrace(config, ticks[..i + 1]) == trace + acts;
        trace := trace + acts;
        i := i + 1;
      }
      assert ticks[..|ticks|] == ticks;
    }

    method Stop()
      modifies this
      ensures !running && trace == old(trace)
    {
      running := false;
    }
  }
}
