/**
 * The node idle shutdown service. Every check interval it looks at each
 * monitored node: a node that has been up long enough and runs no critical
 * workload (a running VM or container without the safe-shutdown tag) is
 * idle; once it has been idle for the grace period, its tagged workloads
 * are shut down and, unless in dry-run mode, the node is powered off.
 * Per-node bookkeeping is `idle_since`; a shared counter of consecutive
 * per-node faults stops the service at a threshold.
 *
 * Clock readings, the host name and what the Proxmox API answers are
 * parameters (one `Cycle` per loop iteration); calls that change the
 * cluster, and waits, are recorded as `Action`s.
 */
module NodeIdleShutdown {
  import opened Wrappers
  import opened Tags
  import opened Inventory
  import ScheduledShutdown

  // ----- configuration -----

  /** The keys of the service's configuration file; `None` is a missing key. */
  datatype IdleSettings = IdleSettings(
    enabled: Option<bool>,
    checkInterval: Option<int>,
    monitoredNodes: Option<seq<string>>,
    safeTag: Option<string>,
    gracePeriod: Option<int>,
    dryRun: Option<bool>,
    minUptime: Option<int>,
    maxConsecutiveErrors: Option<int>)

  const DefaultCheckInterval := 300
  const DefaultSafeTag := "safe-shutdown"
  const DefaultGracePeriod := 60
  const DefaultMinUptime := 600
  const DefaultMaxConsecutiveErrors := 10

  /** The per-workload timeout of the shutdown calls, and the wait after them. */
  const WorkloadTimeout := 60
  const SettleSeconds := 30

  function Enabled(cfg: IdleSettings): bool { cfg.enabled.GetOr(false) }
  function CheckInterval(cfg: IdleSettings): int { cfg.checkInterval.GetOr(DefaultCheckInterval) }
  function SafeTag(cfg: IdleSettings): string { cfg.safeTag.GetOr(DefaultSafeTag) }
  function GracePeriod(cfg: IdleSettings): int { cfg.gracePeriod.GetOr(DefaultGracePeriod) }
  function DryRun(cfg: IdleSettings): bool { cfg.dryRun.GetOr(true) }
  function MinUptime(cfg: IdleSettings): int { cfg.minUptime.GetOr(DefaultMinUptime) }
  function MaxErrors(cfg: IdleSettings): int { cfg.maxConsecutiveErrors.GetOr(DefaultMaxConsecutiveErrors) }

  /**
   * `monitored_nodes`: the configured list, or the local host alone when
   * none (or an empty one) is configured. `hostname` is what
   * `socket.gethostname()` returns; `None` stands for it raising.
   */
  function MonitoredNodes(cfg: IdleSettings, hostname: Option<string>): (r: Option<seq<string>>)
    ensures r.Some? ==> |r.value| > 0
    ensures cfg.monitoredNodes.GetOr([]) != [] ==> r == cfg.monitoredNodes
    ensures r.None? <==> cfg.monitoredNodes.GetOr([]) == [] && hostname.None?
  {
    var nodes := cfg.monitoredNodes.GetOr([]);
    if nodes != [] then Some(nodes)
    else match hostname
      case None => None
      case Some(name) => Some([name])
  }

  /**
   * The checks of `_validate_config` that decide: the check interval and
   * the grace period have lower bounds, and the permission check (whose
   * outcome is `permissionsOk`) must pass. A short `min_uptime` only warns.
   */
  predicate ConfigValid(cfg: IdleSettings, permissionsOk: bool) {
    CheckInterval(cfg) >= 30 && GracePeriod(cfg) >= 10 && permissionsOk
  }

  // ----- node uptime -----

  /** What `nodes(node).status.get()` gives for the `uptime` key. */
  datatype UptimeReading = StatusFailed | NoUptimeField | Seconds(n: int) | NotANumber

  /**
   * `_get_node_uptime` as it is compared with `min_uptime`: a failed status
   * call and a missing key read as 0; a value that is not a number makes the
   * comparison raise, which is `None`.
   */
  function Uptime(u: UptimeReading): (r: Option<int>)
    ensures r.None? <==> u == NotANumber
    ensures u == StatusFailed || u == NoUptimeField ==> r == Some(0)
    ensures u.Seconds? ==> r == Some(u.n)
  {
    match u
    case StatusFailed => Some(0)
    case NoUptimeField => Some(0)
    case Seconds(n) => Some(n)
    case NotANumber => None
  }

  // ----- classifying workloads -----

  /** `_is_vm_critical`: a running workload without the safe-shutdown tag. */
  predicate IsVmCritical(g: Guest, tag: string) {
    IsRunning(g) && !HasTag(g.config, tag)
  }

  function CriticalFilter(tag: string): Guest -> bool {
    g => IsVmCritical(g, tag)
  }

  /**
   * `_check_node_idle`: the node is idle when no critical VM or container
   * was found; if either listing fails the node counts as not idle and the
   * critical list is empty.
   */
  function IdleCheck(h: Host, tag: string): (r: (bool, seq<Guest>))
    ensures !Listable(h) ==> r == (false, [])
    ensures r.0 <==> Listable(h) && forall k: Kind, g: Guest :: g in Listed(h, k) ==> !IsVmCritical(g, tag)
    ensures forall g :: g in r.1 ==> IsVmCritical(g, tag)
    ensures Listable(h) ==> forall k: Kind, g: Guest :: g in Listed(h, k) && IsVmCritical(g, tag) ==> g in r.1
  {
    if !Listable(h) then (false, [])
    else
      var critical := Filter(h.vms.value, CriticalFilter(tag)) + Filter(h.containers.value, CriticalFilter(tag));
      assert Listed(h, Vm) == h.vms.value && Listed(h, Container) == h.containers.value;
      assert critical != [] ==> critical[0] in critical;
      (critical == [], critical)
  }

  /** `_check_node_idle` as written: the critical list is built VMs first, then containers. */
  method CheckNodeIdle(h: Host, tag: string) returns (idle: bool, critical: seq<Guest>)
    ensures (idle, critical) == IdleCheck(h, tag)
  {
    if h.vms.None? {
      return false, [];
    }
    var fromVms := SelectGuests(h.vms.value, CriticalFilter(tag));
    if h.containers.None? {
      return false, [];
    }
    var fromContainers := SelectGuests(h.containers.value, CriticalFilter(tag));
    critical := fromVms + fromContainers;
    idle := |critical| == 0;
  }

  // ----- the node shutdown sequence -----

  /** The selection of `_shutdown_node`: running and tagged with the safe-shutdown tag. */
  predicate IsStoppable(g: Guest, tag: string) {
    IsRunning(g) && HasTag(g.config, tag)
  }

  function StoppableFilter(tag: string): Guest -> bool {
    g => IsStoppable(g, tag)
  }

  /** One shutdown call per stoppable workload of the node, VMs first. */
  function NodeStops(node: string, h: Host, tag: string): seq<Action> {
    ShutdownsOn(node, Vm, Filter(Listed(h, Vm), StoppableFilter(tag)), WorkloadTimeout) +
    ShutdownsOn(node, Container, Filter(Listed(h, Container), StoppableFilter(tag)), WorkloadTimeout)
  }

  /**
   * `_shutdown_node`: the shutdown calls, a settling wait only when there
   * were any, then the node power-off unless in dry-run mode. A failing
   * listing is caught before any call is made.
   */
  function ShutdownSequence(node: string, h: Host, tag: string, dryRun: bool): seq<Action> {
    if !Listable(h) then []
    else
      var stops := NodeStops(node, h, tag);
      stops + (if stops == [] then [] else [Sleep(SettleSeconds)]) + (if dryRun then [] else [PowerOffNode(node)])
  }

  /** Every shutdown call of the sequence is for a running, tagged workload listed on the node. */
  lemma SequenceStopsOnlyStoppable(node: string, h: Host, tag: string, dryRun: bool, a: Action)
    requires a in ShutdownSequence(node, h, tag, dryRun) && a.ShutdownWorkload?
    ensures a.node == node && a.timeout == WorkloadTimeout
    ensures exists g :: g in Listed(h, a.kind) && g.vmid == a.vmid && IsStoppable(g, tag)
  {
    var onVms := ShutdownsOn(node, Vm, Filter(Listed(h, Vm), StoppableFilter(tag)), WorkloadTimeout);
    var onCts := ShutdownsOn(node, Container, Filter(Listed(h, Container), StoppableFilter(tag)), WorkloadTimeout);
    assert a in onVms + onCts;
    if a in onVms {
      var j :| 0 <= j < |onVms| && onVms[j] == a;
      assert Filter(Listed(h, Vm), StoppableFilter(tag))[j] in Filter(Listed(h, Vm), StoppableFilter(tag));
    } else {
      var j :| 0 <= j < |onCts| && onCts[j] == a;
      assert Filter(Listed(h, Container), StoppableFilter(tag))[j] in Filter(Listed(h, Container), StoppableFilter(tag));
    }
  }

  /** The sequence shuts down workloads on `node` and powers off `node`, and no other node. */
  lemma SequenceTargetsItsNode(node: string, h: Host, tag: string, dryRun: bool, a: Action)
    requires a in ShutdownSequence(node, h, tag, dryRun) && (a.ShutdownWorkload? || a.PowerOffNode?)
    ensures a.node == node
  {
    if a.ShutdownWorkload? {
      SequenceStopsOnlyStoppable(node, h, tag, dryRun, a);
    } else {
      PowerOffOnlyWhenLive(node, h, tag, dryRun, a.node);
    }
  }

  /** Every running, tagged workload of a readable node gets its shutdown call. */
  lemma SequenceStopsAllStoppable(node: string, h: Host, tag: string, dryRun: bool, k: Kind, g: Guest)
    requires Listable(h) && g in Listed(h, k) && IsStoppable(g, tag)
    ensures ShutdownWorkload(node, g.vmid, k, WorkloadTimeout) in ShutdownSequence(node, h, tag, dryRun)
  {
    var gs := Filter(Listed(h, k), StoppableFilter(tag));
    assert g in gs;
    var a := ShutdownWorkload(node, g.vmid, k, WorkloadTimeout);
    assert a in ShutdownsOn(node, k, gs, WorkloadTimeout) by {
      var j :| 0 <= j < |gs| && gs[j] == g;
      assert ShutdownsOn(node, k, gs, WorkloadTimeout)[j] == a;
    }
    StopsAreInSequence(node, h, tag, dryRun, k, a);
  }

  lemma StopsAreInSequence(node: string, h: Host, tag: string, dryRun: bool, k: Kind, a: Action)
    requires Listable(h) && a in ShutdownsOn(node, k, Filter(Listed(h, k), StoppableFilter(tag)), WorkloadTimeout)
    ensures a in ShutdownSequence(node, h, tag, dryRun)
  {
  }

  /** The node power-off is issued exactly when not in dry-run mode and the listings were read. */
  lemma PowerOffOnlyWhenLive(node: string, h: Host, tag: string, dryRun: bool, n: string)
    ensures PowerOffNode(n) in ShutdownSequence(node, h, tag, dryRun) <==> Listable(h) && !dryRun && n == node
  {
    if Listable(h) {
      var stops := NodeStops(node, h, tag);
      forall a | a in stops ensures a.ShutdownWorkload? {
        var onVms := ShutdownsOn(node, Vm, Filter(Listed(h, Vm), StoppableFilter(tag)), WorkloadTimeout);
        assert a in onVms || a in ShutdownsOn(node, Container, Filter(Listed(h, Container), StoppableFilter(tag)), WorkloadTimeout);
      }
    }
  }

  /** Dry-run mode still issues every workload shutdown and the wait; it only drops the node power-off. */
  lemma DryRunOnlyDropsPowerOff(node: string, h: Host, tag: string)
    requires Listable(h)
    ensures ShutdownSequence(node, h, tag, true) + [PowerOffNode(node)] == ShutdownSequence(node, h, tag, false)
  {
  }

  /** The settling wait happens exactly when the node has a running, tagged workload. */
  lemma SettleOnlyAfterStops(node: string, h: Host, tag: string, dryRun: bool)
    ensures (exists s :: Sleep(s) in ShutdownSequence(node, h, tag, dryRun)) <==>
            Listable(h) && exists k: Kind, g: Guest :: g in Listed(h, k) && IsStoppable(g, tag)
  {
    var sq := ShutdownSequence(node, h, tag, dryRun);
    if Listable(h) {
      var stops := NodeStops(node, h, tag);
      var onVms := ShutdownsOn(node, Vm, Filter(Listed(h, Vm), StoppableFilter(tag)), WorkloadTimeout);
      var onCts := ShutdownsOn(node, Container, Filter(Listed(h, Container), StoppableFilter(tag)), WorkloadTimeout);
      if exists k: Kind, g: Guest :: g in Listed(h, k) && IsStoppable(g, tag) {
        var k: Kind, g: Guest :| g in Listed(h, k) && IsStoppable(g, tag);
        SequenceStopsAllStoppable(node, h, tag, dryRun, k, g);
        assert ShutdownWorkload(node, g.vmid, k, WorkloadTimeout) in sq;
        assert stops != [];
        assert Sleep(SettleSeconds) in sq;
      } else if stops != [] {
        assert stops[0] in sq;
        SequenceStopsOnlyStoppable(node, h, tag, dryRun, stops[0]);
        assert false;
      }
    }
  }

  /** A workload is stopped by the sequence exactly when it runs without blocking idleness. */
  lemma StoppableIffRunningAndNotCritical(g: Guest, tag: string)
    ensures IsStoppable(g, tag) <==> IsRunning(g) && !IsVmCritical(g, tag)
    ensures !IsRunning(g) ==> !IsVmCritical(g, tag)
  {
  }

  /**
   * When the node is idle and the second listing matches the first, the
   * sequence stops every running workload on the node.
   */
  lemma IdleNodeStopsAllRunning(node: string, h: Host, tag: string, dryRun: bool, k: Kind, g: Guest)
    requires IdleCheck(h, tag).0
    requires g in Listed(h, k) && IsRunning(g)
    ensures ShutdownWorkload(node, g.vmid, k, WorkloadTimeout) in ShutdownSequence(node, h, tag, dryRun)
  {
    SequenceStopsAllStoppable(node, h, tag, dryRun, k, g);
  }

  /**
   * The idle service's classification and the scheduled service's filter
   * agree: with the same safe-shutdown tag, a running workload that is not
   * excluded is shut down by the scheduled service exactly when it does not
   * keep its node from being idle.
   */
  lemma ScheduledFilterIsNotCritical(cfg: ScheduledShutdown.ShutdownSettings, g: Guest)
    requires IsRunning(g) && g.vmid !in ScheduledShutdown.ExcludedVms(cfg)
    ensures ScheduledShutdown.ShouldShutdown(cfg, g) <==> !IsVmCritical(g, ScheduledShutdown.SafeTag(cfg))
  {
  }

  // ----- one node in one cycle -----

  /** The answers the API gives for one node during one cycle: uptime, the idle check's listings, the shutdown's listings. */
  datatype NodeView = NodeView(uptime: UptimeReading, check: Host, relist: Host)

  /**
   * What a check of one node found, in the order the source tests it: the
   * uptime comparison raised, the node was up for too short a time, a
   * critical workload (or an unreadable listing) made it busy, or it was
   * quiet.
   */
  datatype Seen = Raising | TooYoung | Busy | Quiet

  function Classify(cfg: IdleSettings, v: NodeView): (s: Seen)
    ensures s == Raising <==> v.uptime == NotANumber
    ensures s == TooYoung <==> Uptime(v.uptime).Some? && Uptime(v.uptime).value < MinUptime(cfg)
    ensures s == Quiet <==>
      Uptime(v.uptime).Some? && Uptime(v.uptime).value >= MinUptime(cfg) && IdleCheck(v.check, SafeTag(cfg)).0
  {
    match Uptime(v.uptime)
    case None => Raising
    case Some(u) =>
      if u < MinUptime(cfg) then TooYoung
      else if !IdleCheck(v.check, SafeTag(cfg)).0 then Busy
      else Quiet
  }

  /**
   * The bookkeeping rule for `idle_since`, apart from everything else a
   * check does: a raising check leaves it, a young or busy node clears it,
   * a quiet node starts it, keeps it, or clears it once the grace period is
   * over.
   */
  function NextIdleSince(s: Seen, prior: Option<int>, now: int, grace: int): (r: Option<int>)
    ensures r.Some? ==> r == prior || (s == Quiet && prior.None? && r == Some(now))
    ensures s == Quiet && prior.Some? ==> (r.None? <==> now - prior.value >= grace)
    ensures s == Raising ==> r == prior
  {
    match s
    case Raising => prior
    case TooYoung => None
    case Busy => None
    case Quiet =>
      if prior.None? then Some(now)
      else if now - prior.value >= grace then None
      else prior
  }

  /** A quiet node whose idle time started at least `grace` seconds ago. */
  predicate Due(s: Seen, prior: Option<int>, now: int, grace: int) {
    s == Quiet && prior.Some? && now - prior.value >= grace
  }

  /**
   * What checking one node does: it raises before touching any state, or it
   * sets the node's `idle_since`, records actions, and says whether the
   * error counter is cleared.
   */
  datatype NodeResult = Raised | Handled(idleSince: Option<int>, actions: seq<Action>, clearsErrors: bool)

  /** The body of the per-node `try` in `_check_and_shutdown_nodes`. */
  function NodeStep(cfg: IdleSettings, node: string, prior: Option<int>, now: int, v: NodeView): (r: NodeResult)
    ensures r.Raised? <==> Classify(cfg, v) == Raising
    ensures r.Handled? ==> r.idleSince == NextIdleSince(Classify(cfg, v), prior, now, GracePeriod(cfg))
    ensures r.Handled? ==> (r.clearsErrors <==> Classify(cfg, v) != TooYoung)
    ensures r.Handled? && r.actions != [] ==> Due(Classify(cfg, v), prior, now, GracePeriod(cfg))
  {
    match Classify(cfg, v)
    case Raising => Raised
    case TooYoung => Handled(None, [], false)
    case Busy => Handled(None, [], true)
    case Quiet =>
      match prior
      case None => Handled(Some(now), [], true)
      case Some(since) =>
        if now - since >= GracePeriod(cfg) then
          Handled(None, ShutdownSequence(node, v.relist, SafeTag(cfg), DryRun(cfg)), true)
        else Handled(prior, [], true)
  }

  /** Below the minimum uptime (a failed uptime read counts as 0) the idle time is discarded and nothing else happens. */
  lemma UptimeGuard(cfg: IdleSettings, node: string, prior: Option<int>, now: int, v: NodeView)
    requires Uptime(v.uptime).Some? && Uptime(v.uptime).value < MinUptime(cfg)
    ensures NodeStep(cfg, node, prior, now, v) == Handled(None, [], false)
  {
  }

  /** An idle node seen without a recorded idle time only records the clock reading. */
  lemma FirstIdleOnlyRecords(cfg: IdleSettings, node: string, now: int, v: NodeView)
    requires Classify(cfg, v) == Quiet
    ensures NodeStep(cfg, node, None, now, v) == Handled(Some(now), [], true)
  {
  }

  /** A critical workload (or an unreadable listing) discards the idle time. */
  lemma CriticalWorkloadResets(cfg: IdleSettings, node: string, prior: Option<int>, now: int, v: NodeView)
    requires Uptime(v.uptime).Some? && Uptime(v.uptime).value >= MinUptime(cfg)
    requires !IdleCheck(v.check, SafeTag(cfg)).0
    ensures NodeStep(cfg, node, prior, now, v) == Handled(None, [], true)
  {
  }

  /** Once the grace period is over, the shutdown sequence runs and the idle time is discarded. */
  lemma ShutdownResets(cfg: IdleSettings, node: string, prior: Option<int>, now: int, v: NodeView)
    requires Due(Classify(cfg, v), prior, now, GracePeriod(cfg))
    ensures NodeStep(cfg, node, prior, now, v) ==
      Handled(None, ShutdownSequence(node, v.relist, SafeTag(cfg), DryRun(cfg)), true)
  {
  }

  // ----- one node over many cycles -----

  /** `idle_since` of a node after checks that found `seen` (clock reading and finding) in turn. */
  function IdleAfter(grace: int, seen: seq<(int, Seen)>): Option<int> {
    if seen == [] then None
    else
      var last := seen[|seen| - 1];
      NextIdleSince(last.1, IdleAfter(grace, seen[..|seen| - 1]), last.0, grace)
  }

  /** A recorded idle time after a check was either kept from before it or is that quiet check's clock reading. */
  lemma KeptOrRecorded(grace: int, seen: seq<(int, Seen)>, j: nat)
    requires j < |seen| && IdleAfter(grace, seen[..j + 1]).Some?
    ensures seen[j].1 == Raising || seen[j].1 == Quiet
    ensures var prior := IdleAfter(grace, seen[..j]);
      IdleAfter(grace, seen[..j + 1]) == (if prior.Some? then prior else Some(seen[j].0))
    ensures seen[j].1 == Raising ==> IdleAfter(grace, seen[..j]).Some?
  {
    assert seen[..j + 1][..j] == seen[..j];
  }

  /**
   * A recorded idle time is the clock reading of an earlier quiet check, made
   * when no idle time was recorded; from then on it stayed recorded and every
   * check in between was quiet or raised. `i` is that check.
   */
  lemma {:induction false} RecordedAt(grace: int, seen: seq<(int, Seen)>, j: nat) returns (i: nat)
    requires j <= |seen| && IdleAfter(grace, seen[..j]).Some?
    ensures i < j && IdleAfter(grace, seen[..i]).None? && seen[i].1 == Quiet
    ensures seen[i].0 == IdleAfter(grace, seen[..j]).value
    ensures forall m :: i < m <= j ==> IdleAfter(grace, seen[..m]) == IdleAfter(grace, seen[..j])
    ensures forall m :: i <= m < j ==> seen[m].1 == Raising || seen[m].1 == Quiet
  {
    if j == 0 {
      assert false;
    }
    KeptOrRecorded(grace, seen, j - 1);
    if IdleAfter(grace, seen[..j - 1]).Some? {
      i := RecordedAt(grace, seen, j - 1);
    } else {
      i := j - 1;
    }
  }

  /** `RecordedAt`, stated with the earlier check quantified. */
  lemma IdleSinceWasRecorded(grace: int, seen: seq<(int, Seen)>, j: nat)
    requires j <= |seen| && IdleAfter(grace, seen[..j]).Some?
    ensures exists i :: (
      && 0 <= i < j && seen[i].1 == Quiet
      && IdleAfter(grace, seen[..i]).None?
      && seen[i].0 == IdleAfter(grace, seen[..j]).value
      && (forall m :: i < m <= j ==> IdleAfter(grace, seen[..m]) == IdleAfter(grace, seen[..j]))
      && (forall m :: i <= m < j ==> seen[m].1 == Raising || seen[m].1 == Quiet))
  {
    var i := RecordedAt(grace, seen, j);
  }

  /**
   * No shutdown before the grace period: when a check shuts the node down,
   * the idle time it compares against is the clock reading of an earlier
   * quiet check that found no idle time recorded, at least `grace` seconds
   * before, and every check in between was quiet or raised.
   */
  lemma NoShutdownBeforeGrace(grace: int, seen: seq<(int, Seen)>, j: nat)
    requires j < |seen| && Due(seen[j].1, IdleAfter(grace, seen[..j]), seen[j].0, grace)
    ensures exists i :: (
      && 0 <= i < j
      && seen[i].1 == Quiet
      && IdleAfter(grace, seen[..i]).None?
      && seen[i].0 == IdleAfter(grace, seen[..j]).value
      && seen[j].0 - seen[i].0 >= grace
      && (forall m :: i <= m <= j ==> seen[m].1 == Raising || seen[m].1 == Quiet))
  {
    var i := RecordedAt(grace, seen, j);
    assert forall m :: i <= m <= j ==> seen[m].1 == Raising || seen[m].1 == Quiet;
    assert IdleAfter(grace, seen[..i]).None? && seen[j].0 - seen[i].0 >= grace;
  }

  /**
   * A shutdown discards the idle time, so the next one needs a fresh grace
   * period: its idle time was recorded by a quiet check after the first
   * shutdown, at least `grace` seconds before the second, with only quiet or
   * raising checks in between.
   */
  lemma ShutdownRestartsGrace(grace: int, seen: seq<(int, Seen)>, j0: nat, j1: nat)
    requires j0 < j1 < |seen|
    requires Due(seen[j0].1, IdleAfter(grace, seen[..j0]), seen[j0].0, grace)
    requires Due(seen[j1].1, IdleAfter(grace, seen[..j1]), seen[j1].0, grace)
    ensures exists i :: (
      && j0 < i < j1
      && seen[i].1 == Quiet
      && IdleAfter(grace, seen[..i]).None?
      && seen[i].0 == IdleAfter(grace, seen[..j1]).value
      && seen[j1].0 - seen[i].0 >= grace
      && (forall m :: i <= m <= j1 ==> seen[m].1 == Raising || seen[m].1 == Quiet))
  {
    assert seen[..j0 + 1][..j0] == seen[..j0];
    assert IdleAfter(grace, seen[..j0 + 1]).None?;
    var i := RecordedAt(grace, seen, j1);
    assert j0 < i;
    assert forall m :: i <= m <= j1 ==> seen[m].1 == Raising || seen[m].1 == Quiet;
  }

  // ----- one cycle over all monitored nodes -----

  /** What the API answers during one cycle: the clock reading, the host name and each node's view. */
  datatype Cycle = Cycle(now: int, hostname: Option<string>, views: map<string, NodeView>)

  /** A node the API does not know fails every call. */
  function ViewOf(c: Cycle, node: string): NodeView {
    if node in c.views then c.views[node] else NodeView(StatusFailed, Host(None, None), Host(None, None))
  }

  /** The service's fields: `running`, `idle_since`, `consecutive_errors`, and the actions so far. */
  datatype IdleState = IdleState(running: bool, idleSince: map<string, Option<int>>, errors: int, trace: seq<Action>)

  /** An absent key and a `None` entry of `idle_since` mean the same. */
  function IdleOf(m: map<string, Option<int>>, node: string): Option<int> {
    if node in m then m[node] else None
  }

  /**
   * How `_check_and_shutdown_nodes` ends: normally, by raising RuntimeError
   * at the error threshold, or by raising before the node loop (the host
   * name could not be read).
   */
  datatype CycleOutcome = Finished | Halted | Crashed

  /** One node of the loop in `_check_and_shutdown_nodes`, with its `except` branch. */
  function NodeUpdate(cfg: IdleSettings, st: IdleState, node: string, c: Cycle): (r: (IdleState, CycleOutcome))
    ensures r.1 != Crashed
    ensures st.trace <= r.0.trace
    ensures r.0.running == (st.running && r.1 != Halted)
    ensures r.1 == Halted ==> r.0.errors >= MaxErrors(cfg)
    ensures r.1 == Halted ==> r.0.idleSince == st.idleSince && r.0.trace == st.trace
  {
    var prior := IdleOf(st.idleSince, node);
    match NodeStep(cfg, node, prior, c.now, ViewOf(c, node))
    case Raised =>
      var errors := st.errors + 1;
      if errors >= MaxErrors(cfg) then (st.(errors := errors, running := false), Halted)
      else (st.(errors := errors), Finished)
    case Handled(since, acts, clears) =>
      (st.(idleSince := st.idleSince[node := since], trace := st.trace + acts,
           errors := if clears then 0 else st.errors), Finished)
  }

  /** The node loop, stopped by the first RuntimeError. */
  function ProcessNodes(cfg: IdleSettings, st: IdleState, nodes: seq<string>, c: Cycle): (r: (IdleState, CycleOutcome))
    ensures r.1 != Crashed
    ensures r.0.running == (st.running && r.1 != Halted)
    ensures r.1 == Halted ==> r.0.errors >= MaxErrors(cfg)
    ensures forall n :: n !in nodes ==> IdleOf(r.0.idleSince, n) == IdleOf(st.idleSince, n)
    ensures st.trace <= r.0.trace
    decreases |nodes|
  {
    if nodes == [] then (st, Finished)
    else
      var (st1, out) := NodeUpdate(cfg, st, nodes[0], c);
      if out == Halted then (st1, Halted)
      else ProcessNodes(cfg, st1, nodes[1..], c)
  }

  /** `_check_and_shutdown_nodes`: reading `monitored_nodes` raises before the loop when the host name is unreadable. */
  function CycleResult(cfg: IdleSettings, st: IdleState, c: Cycle): (r: (IdleState, CycleOutcome))
    ensures r.1 == Crashed <==> MonitoredNodes(cfg, c.hostname).None?
    ensures r.1 == Crashed ==> r.0 == st
    ensures r.0.running == (st.running && r.1 != Halted)
    ensures st.trace <= r.0.trace
  {
    match MonitoredNodes(cfg, c.hostname)
    case None => (st, Crashed)
    case Some(nodes) => ProcessNodes(cfg, st, nodes, c)
  }

  /**
   * In a cycle that finishes, a node listed once has its `idle_since`
   * updated by the bookkeeping rule, from what its own check found and its
   * idle time before the cycle. `IdleFollowsHistory` carries this over a
   * whole run.
   */
  lemma {:induction false} CycleStepsEachNode(cfg: IdleSettings, st: IdleState, nodes: seq<string>, c: Cycle, n: string)
    requires ProcessNodes(cfg, st, nodes, c).1 == Finished
    requires multiset(nodes)[n] == 1
    ensures IdleOf(ProcessNodes(cfg, st, nodes, c).0.idleSince, n) ==
      NextIdleSince(Classify(cfg, ViewOf(c, n)), IdleOf(st.idleSince, n), c.now, GracePeriod(cfg))
    decreases |nodes|
  {
    assert nodes == [nodes[0]] + nodes[1..];
    var (st1, out) := NodeUpdate(cfg, st, nodes[0], c);
    assert multiset(nodes) == multiset{nodes[0]} + multiset(nodes[1..]);
    if nodes[0] == n {
      assert n !in multiset(nodes[1..]);
      assert n !in nodes[1..];
    } else {
      CycleStepsEachNode(cfg, st1, nodes[1..], c, n);
    }
  }

  /** Nodes that all raise add one error each; below the threshold the cycle finishes and changes nothing else. */
  lemma {:induction false} FaultsAccumulate(cfg: IdleSettings, st: IdleState, nodes: seq<string>, c: Cycle)
    requires forall n :: n in nodes ==> ViewOf(c, n).uptime == NotANumber
    requires st.errors + |nodes| < MaxErrors(cfg)
    ensures ProcessNodes(cfg, st, nodes, c) == (st.(errors := st.errors + |nodes|), Finished)
    decreases |nodes|
  {
    if nodes != [] {
      assert nodes[0] in nodes;
      assert forall n :: n in nodes[1..] ==> n in nodes;
      FaultsAccumulate(cfg, st.(errors := st.errors + 1), nodes[1..], c);
    }
  }

  /**
   * The service stops after exactly as many consecutive faults as the
   * threshold allows: nodes that all raise, with the counter reaching the
   * threshold at the last one, end the cycle with RuntimeError there and
   * leave the idle times and the actions as they were.
   */
  lemma {:induction false} HaltsAtThreshold(cfg: IdleSettings, st: IdleState, nodes: seq<string>, c: Cycle)
    requires forall n :: n in nodes ==> ViewOf(c, n).uptime == NotANumber
    requires |nodes| > 0 && st.errors + |nodes| == MaxErrors(cfg)
    ensures ProcessNodes(cfg, st, nodes, c) == (st.(errors := MaxErrors(cfg), running := false), Halted)
    decreases |nodes|
  {
    assert nodes[0] in nodes;
    if |nodes| > 1 {
      assert forall n :: n in nodes[1..] ==> n in nodes;
      HaltsAtThreshold(cfg, st.(errors := st.errors + 1), nodes[1..], c);
    }
  }

  /** A node checked without raising clears the counter, except below the minimum uptime. */
  lemma CheckedNodeClearsErrors(cfg: IdleSettings, st: IdleState, node: string, c: Cycle)
    requires ViewOf(c, node).uptime != NotANumber
    ensures NodeUpdate(cfg, st, node, c).1 == Finished
    ensures NodeUpdate(cfg, st, node, c).0.errors ==
      if Uptime(ViewOf(c, node).uptime).value >= MinUptime(cfg) then 0 else st.errors
  {
  }

  // ----- the service loop -----

  /**
   * `run` after validation: one cycle per element of `cycles`. A RuntimeError
   * breaks out at once; another exception counts as an error and breaks
   * out at the threshold; otherwise the loop sleeps `check_interval`.
   */
  function RunFrom(cfg: IdleSettings, st: IdleState, cycles: seq<Cycle>): IdleState
    decreases |cycles|
  {
    if cycles == [] then st
    else
      var (st1, out) := CycleResult(cfg, st, cycles[0]);
      if out == Halted then st1
      else
        var st2 := if out == Crashed then st1.(errors := st1.errors + 1) else st1;
        if out == Crashed && st2.errors >= MaxErrors(cfg) then st2
        else RunFrom(cfg, st2.(trace := st2.trace + [Sleep(CheckInterval(cfg))]), cycles[1..])
  }

  /** The loop only appends actions, and never sets `running` once it is cleared. */
  lemma {:induction false} RunOnlyAppends(cfg: IdleSettings, st: IdleState, cycles: seq<Cycle>)
    ensures st.trace <= RunFrom(cfg, st, cycles).trace
    ensures RunFrom(cfg, st, cycles).running ==> st.running
    decreases |cycles|
  {
    if cycles != [] {
      var (st1, out) := CycleResult(cfg, st, cycles[0]);
      var st2 := if out == Crashed then st1.(errors := st1.errors + 1) else st1;
      if out != Halted && !(out == Crashed && st2.errors >= MaxErrors(cfg)) {
        var st3 := st2.(trace := st2.trace + [Sleep(CheckInterval(cfg))]);
        RunOnlyAppends(cfg, st3, cycles[1..]);
        assert st.trace <= st3.trace;
      }
    }
  }

  predicate NoPowerOff(trace: seq<Action>) {
    forall a :: a in trace ==> !a.PowerOffNode?
  }

  lemma NodeUpdateDryRun(cfg: IdleSettings, st: IdleState, node: string, c: Cycle)
    requires DryRun(cfg) && NoPowerOff(st.trace)
    ensures NoPowerOff(NodeUpdate(cfg, st, node, c).0.trace)
  {
    var v := ViewOf(c, node);
    var r := NodeStep(cfg, node, IdleOf(st.idleSince, node), c.now, v);
    if r.Handled? {
      forall n: string ensures PowerOffNode(n) !in r.actions {
        PowerOffOnlyWhenLive(node, v.relist, SafeTag(cfg), true, n);
      }
    }
  }

  lemma {:induction false} ProcessNodesDryRun(cfg: IdleSettings, st: IdleState, nodes: seq<string>, c: Cycle)
    requires DryRun(cfg) && NoPowerOff(st.trace)
    ensures NoPowerOff(ProcessNodes(cfg, st, nodes, c).0.trace)
    decreases |nodes|
  {
    if nodes != [] {
      NodeUpdateDryRun(cfg, st, nodes[0], c);
      ProcessNodesDryRun(cfg, NodeUpdate(cfg, st, nodes[0], c).0, nodes[1..], c);
    }
  }

  /** In dry-run mode the service never powers a node off, however many cycles it runs. */
  lemma {:induction false} DryRunNeverPowersOff(cfg: IdleSettings, st: IdleState, cycles: seq<Cycle>)
    requires DryRun(cfg) && NoPowerOff(st.trace)
    ensures NoPowerOff(RunFrom(cfg, st, cycles).trace)
    decreases |cycles|
  {
    if cycles != [] {
      var nodes := MonitoredNodes(cfg, cycles[0].hostname);
      if nodes.Some? {
        ProcessNodesDryRun(cfg, st, nodes.value, cycles[0]);
      }
      var (st1, out) := CycleResult(cfg, st, cycles[0]);
      var st2 := if out == Crashed then st1.(errors := st1.errors + 1) else st1;
      if out != Halted && !(out == Crashed && st2.errors >= MaxErrors(cfg)) {
        DryRunNeverPowersOff(cfg, st2.(trace := st2.trace + [Sleep(CheckInterval(cfg))]), cycles[1..]);
      }
    }
  }

  /**
   * A loop that ends because unreadable host names pushed the counter to the
   * threshold leaves `running` set: only the per-node path clears it.
   */
  lemma CrashLimitLeavesRunningSet(cfg: IdleSettings, st: IdleState, c: Cycle)
    requires st.running && MonitoredNodes(cfg, c.hostname).None? && st.errors + 1 >= MaxErrors(cfg)
    ensures RunFrom(cfg, st, [c]) == st.(errors := st.errors + 1)
    ensures RunFrom(cfg, st, [c]).running
  {
  }

  // ----- one node over a whole run -----

  /** A cycle in which the host name (where it is needed) and every monitored node's uptime can be read. */
  predicate Uneventful(cfg: IdleSettings, c: Cycle) {
    && MonitoredNodes(cfg, c.hostname).Some?
    && forall m :: m in MonitoredNodes(cfg, c.hostname).value ==> ViewOf(c, m).uptime != NotANumber
  }

  /** `node` is checked exactly once in cycle `c`. */
  predicate CheckedOnce(cfg: IdleSettings, c: Cycle, node: string) {
    MonitoredNodes(cfg, c.hostname).Some? && multiset(MonitoredNodes(cfg, c.hostname).value)[node] == 1
  }

  /** One pass of the `while` loop of `run` over a cycle that finishes: the cycle, then the sleep. */
  function AfterCycle(cfg: IdleSettings, st: IdleState, c: Cycle): IdleState {
    var st1 := CycleResult(cfg, st, c).0;
    st1.(trace := st1.trace + [Sleep(CheckInterval(cfg))])
  }

  /** What the checks of `node` found over `cycles`: each cycle's clock reading and finding. */
  function History(cfg: IdleSettings, node: string, cycles: seq<Cycle>): seq<(int, Seen)> {
    seq(|cycles|, i requires 0 <= i < |cycles| => (cycles[i].now, Classify(cfg, ViewOf(cycles[i], node))))
  }

  lemma HistoryPrefix(cfg: IdleSettings, node: string, cycles: seq<Cycle>, k: nat)
    requires k <= |cycles|
    ensures History(cfg, node, cycles)[..k] == History(cfg, node, cycles[..k])
  {
  }

  /** A check found due within the first `k` cycles is found due within all of them. */
  lemma DueInPrefix(cfg: IdleSettings, node: string, cycles: seq<Cycle>, k: nat, j: nat)
    requires j < k <= |cycles|
    requires var h := History(cfg, node, cycles[..k]);
      Due(h[j].1, IdleAfter(GracePeriod(cfg), h[..j]), h[j].0, GracePeriod(cfg))
    ensures var h := History(cfg, node, cycles);
      Due(h[j].1, IdleAfter(GracePeriod(cfg), h[..j]), h[j].0, GracePeriod(cfg))
  {
    HistoryPrefix(cfg, node, cycles, k);
    var h := History(cfg, node, cycles);
    assert h[..k][..j] == h[..j];
  }

  /** The last check is due when its finding is due against `IdleAfter` of the checks before. */
  lemma DueAtLast(cfg: IdleSettings, node: string, cycles: seq<Cycle>)
    requires cycles != []
    requires var k := |cycles| - 1; var c := cycles[k];
      Due(Classify(cfg, ViewOf(c, node)), IdleAfter(GracePeriod(cfg), History(cfg, node, cycles[..k])), c.now, GracePeriod(cfg))
    ensures var k := |cycles| - 1; var h := History(cfg, node, cycles);
      Due(h[k].1, IdleAfter(GracePeriod(cfg), h[..k]), h[k].0, GracePeriod(cfg))
  {
    HistoryPrefix(cfg, node, cycles, |cycles| - 1);
  }

  /** A node loop in which every uptime can be read never raises RuntimeError. */
  lemma {:induction false} ProcessNodesFinishes(cfg: IdleSettings, st: IdleState, nodes: seq<string>, c: Cycle)
    requires forall m :: m in nodes ==> ViewOf(c, m).uptime != NotANumber
    ensures ProcessNodes(cfg, st, nodes, c).1 == Finished
    decreases |nodes|
  {
    if nodes != [] {
      assert nodes[0] in nodes;
      CheckedNodeClearsErrors(cfg, st, nodes[0], c);
      assert forall m :: m in nodes[1..] ==> m in nodes;
      ProcessNodesFinishes(cfg, NodeUpdate(cfg, st, nodes[0], c).0, nodes[1..], c);
    }
  }

  /** Over uneventful cycles the loop never breaks, so one more cycle is one more pass. */
  lemma {:induction false} RunFromSnoc(cfg: IdleSettings, st: IdleState, cycles: seq<Cycle>, c: Cycle)
    requires forall i :: 0 <= i < |cycles| ==> Uneventful(cfg, cycles[i])
    requires Uneventful(cfg, c)
    ensures RunFrom(cfg, st, cycles + [c]) == AfterCycle(cfg, RunFrom(cfg, st, cycles), c)
    decreases |cycles|
  {
    if cycles == [] {
      ProcessNodesFinishes(cfg, st, MonitoredNodes(cfg, c.hostname).value, c);
      assert [c][1..] == [];
    } else {
      ProcessNodesFinishes(cfg, st, MonitoredNodes(cfg, cycles[0].hostname).value, cycles[0]);
      assert (cycles + [c])[1..] == cycles[1..] + [c];
      RunFromSnoc(cfg, AfterCycle(cfg, st, cycles[0]), cycles[1..], c);
    }
  }

  /**
   * Over a run of uneventful cycles in which `node` is checked once each,
   * starting with no idle time recorded for it, its `idle_since` is
   * `IdleAfter` of what its checks found.
   */
  lemma {:induction false} IdleFollowsHistory(cfg: IdleSettings, st: IdleState, cycles: seq<Cycle>, node: string)
    requires forall i :: 0 <= i < |cycles| ==> Uneventful(cfg, cycles[i]) && CheckedOnce(cfg, cycles[i], node)
    requires IdleOf(st.idleSince, node).None?
    ensures IdleOf(RunFrom(cfg, st, cycles).idleSince, node) == IdleAfter(GracePeriod(cfg), History(cfg, node, cycles))
    decreases |cycles|
  {
    if cycles != [] {
      var k := |cycles| - 1;
      var xs, c := cycles[..k], cycles[k];
      assert cycles == xs + [c];
      RunFromSnoc(cfg, st, xs, c);
      IdleFollowsHistory(cfg, st, xs, node);
      var s := RunFrom(cfg, st, xs);
      ProcessNodesFinishes(cfg, s, MonitoredNodes(cfg, c.hostname).value, c);
      CycleStepsEachNode(cfg, s, MonitoredNodes(cfg, c.hostname).value, c, node);
      HistoryPrefix(cfg, node, cycles, k);
    }
  }

  /** An action that shuts down a workload on `node` or powers `node` off. */
  predicate Targets(a: Action, node: string) {
    (a.ShutdownWorkload? || a.PowerOffNode?) && a.node == node
  }

  /**
   * An action of one cycle that targets `node` comes from `node`'s own
   * check, which found it due against its idle time before the cycle.
   */
  lemma {:induction false} CycleActsOnlyWhenDue(cfg: IdleSettings, st: IdleState, nodes: seq<string>, c: Cycle, node: string, a: Action)
    requires multiset(nodes)[node] <= 1
    requires a in ProcessNodes(cfg, st, nodes, c).0.trace && a !in st.trace && Targets(a, node)
    ensures node in nodes
    ensures Due(Classify(cfg, ViewOf(c, node)), IdleOf(st.idleSince, node), c.now, GracePeriod(cfg))
    decreases |nodes|
  {
    if nodes == [] {
      assert false;
    }
    var m := nodes[0];
    assert nodes == [m] + nodes[1..];
    assert multiset(nodes) == multiset{m} + multiset(nodes[1..]);
    var st1 := NodeUpdate(cfg, st, m, c).0;
    if a in st1.trace {
      NodeActsOnlyWhenDue(cfg, st, m, c, node, a);
    } else {
      CycleActsOnlyWhenDue(cfg, st1, nodes[1..], c, node, a);
      NodeUpdateKeepsOthers(cfg, st, m, c, node);
    }
  }

  /** An action one node's check adds that targets `node` is that node's own, issued when it was due. */
  lemma NodeActsOnlyWhenDue(cfg: IdleSettings, st: IdleState, m: string, c: Cycle, node: string, a: Action)
    requires a in NodeUpdate(cfg, st, m, c).0.trace && a !in st.trace && Targets(a, node)
    ensures m == node
    ensures Due(Classify(cfg, ViewOf(c, m)), IdleOf(st.idleSince, m), c.now, GracePeriod(cfg))
  {
    var r := NodeStep(cfg, m, IdleOf(st.idleSince, m), c.now, ViewOf(c, m));
    assert r.Handled? && a in r.actions;
    ShutdownResets(cfg, m, IdleOf(st.idleSince, m), c.now, ViewOf(c, m));
    SequenceTargetsItsNode(m, ViewOf(c, m).relist, SafeTag(cfg), DryRun(cfg), a);
  }

  /** Checking node `m` leaves every other node's idle time as it was. */
  lemma NodeUpdateKeepsOthers(cfg: IdleSettings, st: IdleState, m: string, c: Cycle, node: string)
    requires m != node
    ensures IdleOf(NodeUpdate(cfg, st, m, c).0.idleSince, node) == IdleOf(st.idleSince, node)
  {
  }

  lemma LastCycleActsOnlyWhenDue(cfg: IdleSettings, s: IdleState, c: Cycle, node: string, a: Action)
    requires CheckedOnce(cfg, c, node)
    requires a in AfterCycle(cfg, s, c).trace && a !in s.trace && Targets(a, node)
    ensures Due(Classify(cfg, ViewOf(c, node)), IdleOf(s.idleSince, node), c.now, GracePeriod(cfg))
  {
    var nodes := MonitoredNodes(cfg, c.hostname).value;
    assert a in ProcessNodes(cfg, s, nodes, c).0.trace;
    CycleActsOnlyWhenDue(cfg, s, nodes, c, node, a);
  }

  /**
   * Over a run of uneventful cycles in which `node` is checked once each,
   * every shutdown call and power-off for `node` comes from a check `j`
   * that found it due against `IdleAfter` of the checks before.
   */
  lemma {:induction false} RunActsOnlyWhenDue(cfg: IdleSettings, st: IdleState, cycles: seq<Cycle>, node: string, a: Action)
    returns (j: nat)
    requires forall i :: 0 <= i < |cycles| ==> Uneventful(cfg, cycles[i]) && CheckedOnce(cfg, cycles[i], node)
    requires IdleOf(st.idleSince, node).None?
    requires a in RunFrom(cfg, st, cycles).trace && a !in st.trace && Targets(a, node)
    ensures j < |cycles|
    ensures var h := History(cfg, node, cycles);
      Due(h[j].1, IdleAfter(GracePeriod(cfg), h[..j]), h[j].0, GracePeriod(cfg))
    decreases |cycles|
  {
    if cycles == [] {
      assert false;
    }
    var k := |cycles| - 1;
    var xs, c := cycles[..k], cycles[k];
    assert cycles == xs + [c];
    assert forall i :: 0 <= i < |xs| ==> xs[i] == cycles[i];
    RunFromSnoc(cfg, st, xs, c);
    var s := RunFrom(cfg, st, xs);
    if a in s.trace {
      j := RunActsOnlyWhenDue(cfg, st, xs, node, a);
      DueInPrefix(cfg, node, cycles, k, j);
    } else {
      LastCycleActsOnlyWhenDue(cfg, s, c, node, a);
      IdleFollowsHistory(cfg, st, xs, node);
      DueAtLast(cfg, node, cycles);
      j := k;
    }
  }

  /**
   * No node is shut down before its grace period, over a whole run: a
   * shutdown call or power-off for `node` is issued at check `j`, and an
   * earlier check `i` found the node quiet with no idle time recorded, at
   * least `grace` seconds before, and every check of it from `i` to `j`
   * found it quiet.
   */
  lemma RunNeverShutsDownEarly(cfg: IdleSettings, st: IdleState, cycles: seq<Cycle>, node: string, a: Action)
    returns (i: nat, j: nat)
    requires forall i :: 0 <= i < |cycles| ==> Uneventful(cfg, cycles[i]) && CheckedOnce(cfg, cycles[i], node)
    requires IdleOf(st.idleSince, node).None?
    requires a in RunFrom(cfg, st, cycles).trace && a !in st.trace && Targets(a, node)
    ensures i < j < |cycles|
    ensures var h := History(cfg, node, cycles);
      && h[i].1 == Quiet
      && IdleAfter(GracePeriod(cfg), h[..i]).None?
      && h[j].0 - h[i].0 >= GracePeriod(cfg)
      && forall m :: i <= m <= j ==> h[m].1 == Quiet
  {
    j := RunActsOnlyWhenDue(cfg, st, cycles, node, a);
    i := QuietSinceRecorded(cfg, cycles, node, j);
  }

  /** `RecordedAt` over uneventful cycles, where no check of `node` raises. */
  lemma QuietSinceRecorded(cfg: IdleSettings, cycles: seq<Cycle>, node: string, j: nat) returns (i: nat)
    requires forall i :: 0 <= i < |cycles| ==> Uneventful(cfg, cycles[i]) && CheckedOnce(cfg, cycles[i], node)
    requires j < |cycles|
    requires var h := History(cfg, node, cycles);
      Due(h[j].1, IdleAfter(GracePeriod(cfg), h[..j]), h[j].0, GracePeriod(cfg))
    ensures i < j
    ensures var h := History(cfg, node, cycles);
      && h[i].1 == Quiet
      && IdleAfter(GracePeriod(cfg), h[..i]).None?
      && h[j].0 - h[i].0 >= GracePeriod(cfg)
      && forall m :: i <= m <= j ==> h[m].1 == Quiet
  {
    var h := History(cfg, node, cycles);
    i := RecordedAt(GracePeriod(cfg), h, j);
    forall m | i <= m <= j
      ensures h[m].1 == Quiet
    {
      HistoryNeverRaises(cfg, cycles, node, m);
    }
  }

  lemma HistoryNeverRaises(cfg: IdleSettings, cycles: seq<Cycle>, node: string, m: nat)
    requires m < |cycles| && Uneventful(cfg, cycles[m]) && CheckedOnce(cfg, cycles[m], node)
    ensures History(cfg, node, cycles)[m].1 != Raising
  {
    assert node in MonitoredNodes(cfg, cycles[m].hostname).value;
  }

  // ----- the service object -----

  /** `NodeIdleShutdownService`, with `last_state` (which only chooses log messages) left out. */
  class IdleShutdownService {
    const config: IdleSettings
    var running: bool
    var idleSince: map<string, Option<int>>
    var consecutiveErrors: int
    var trace: seq<Action>

    function State(): IdleState
      reads this
    {
      IdleState(running, idleSince, consecutiveErrors, trace)
    }

    constructor(config: IdleSettings)
      ensures this.config == config
      ensures State() == IdleState(false, map[], 0, [])
    {
      this.config := config;
      running := false;
      idleSince := map[];
      consecutiveErrors := 0;
      trace := [];
    }

    /** `_shutdown_node`, with the actions it performs returned in order. */
    method ShutdownNode(node: string, relist: Host) returns (acts: seq<Action>)
      ensures acts == ShutdownSequence(node, relist, SafeTag(config), DryRun(config))
    {
      acts := [];
      if !Listable(relist) {
        return;
      }
      var tag := SafeTag(config);
      var vms := SelectGuests(relist.vms.value, StoppableFilter(tag));
      var containers := SelectGuests(relist.containers.value, StoppableFilter(tag));
      if |vms| + |containers| > 0 {
        var tasks := ShutdownsOn(node, Vm, vms, WorkloadTimeout) + ShutdownsOn(node, Container, containers, WorkloadTimeout);
        acts := tasks + [Sleep(SettleSeconds)];
      }
      if !DryRun(config) {
        acts := acts + [PowerOffNode(node)];
      }
    }

    /** One node of `_check_and_shutdown_nodes`; returns `Halted` where the source raises RuntimeError. */
    method CheckNode(node: string, c: Cycle) returns (outcome: CycleOutcome)
      modifies this
      ensures (State(), outcome) == NodeUpdate(config, old(State()), node, c)
    {
      var view := ViewOf(c, node);
      var uptime := Uptime(view.uptime);
      if uptime.None? {
        consecutiveErrors := consecutiveErrors + 1;
        if consecutiveErrors >= MaxErrors(config) {
          running := false;
          return Halted;
        }
        return Finished;
      }
      if uptime.value < MinUptime(config) {
        assert trace == trace + [];
        idleSince := idleSince[node := None];
        return Finished;
      }
      var idle, critical := CheckNodeIdle(view.check, SafeTag(config));
      if idle {
        var since := IdleOf(idleSince, node);
        if since.None? {
          assert trace == trace + [];
          idleSince := idleSince[node := Some(c.now)];
        } else if c.now - since.value >= GracePeriod(config) {
          var acts := ShutdownNode(node, view.relist);
          trace := trace + acts;
          idleSince := idleSince[node := None];
        } else {
          assert trace == trace + [];
          assert idleSince[node := since] == idleSince;
        }
      } else {
        assert trace == trace + [];
        idleSince := idleSince[node := None];
      }
      consecutiveErrors := 0;
      return Finished;
    }

    /** `_check_and_shutdown_nodes`. */
    method CheckAndShutdownNodes(c: Cycle) returns (outcome: CycleOutcome)
      modifies this
      ensures (State(), outcome) == CycleResult(config, old(State()), c)
    {
      var nodes := MonitoredNodes(config, c.hostname);
      if nodes.None? {
        return Crashed;
      }
      var names := nodes.value;
      ghost var start := State();
      for i := 0 to |names|
        invariant ProcessNodes(config, start, names, c) == ProcessNodes(config, State(), names[i..], c)
      {
        assert names[i..][1..] == names[i + 1..];
        outcome := CheckNode(names[i], c);
        if outcome == Halted {
          return;
        }
      }
      return Finished;
    }

    /**
     * `run`: validation, then the start-up message, then the polling loop
     * over `cycles`. A failed validation returns without entering the loop;
     * the start-up message reads `monitored_nodes` outside any `try`, so a
     * host name that cannot be read then (`startHostname`) raises out of
     * `run` with `running` already set.
     */
    method Run(startHostname: Option<string>, cycles: seq<Cycle>, permissionsOk: bool)
      modifies this
      ensures !ConfigValid(config, permissionsOk) ==> State() == old(State())
      ensures ConfigValid(config, permissionsOk) && MonitoredNodes(config, startHostname).None? ==>
        State() == old(State()).(running := true)
      ensures ConfigValid(config, permissionsOk) && MonitoredNodes(config, startHostname).Some? ==>
        State() == RunFrom(config, old(State()).(running := true), cycles)
    {
      if !ConfigValid(config, permissionsOk) {
        return;
      }
      running := true;
      if MonitoredNodes(config, startHostname).None? {
        return;
      }
      ghost var start := State();
      for i := 0 to |cycles|
        invariant RunFrom(config, start, cycles) == RunFrom(config, State(), cycles[i..])
      {
        assert cycles[i..][1..] == cycles[i + 1..];
        var outcome := CheckAndShutdownNodes(cycles[i]);
        if outcome == Halted {
          return;
        }
        if outcome == Crashed {
          consecutiveErrors := consecutiveErrors + 1;
          if consecutiveErrors >= MaxErrors(config) {
            return;
          }
        }
        trace := trace + [Sleep(CheckInterval(config))];
      }
    }

    /** `stop`. */
    method Stop()
      modifies this
      ensures State() == old(State()).(running := false)
    {
      running := false;
    }
  }
}
