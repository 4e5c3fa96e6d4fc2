/**
 * The cluster as the services see it through the Proxmox API: one snapshot
 * of node names, per-node VM and container listings, and per-guest
 * configuration. A listing that is `None` stands for an API call that
 * raised. Side effects are not performed but recorded as `Action`s.
 */
module Inventory {
  import opened Wrappers
  import opened Tags

  datatype Kind = Vm | Container

  /** One entry of `qemu.get()` / `lxc.get()`, with the result of reading its configuration. */
  datatype Guest = Guest(vmid: int, status: string, config: TagFetch)

  /** What `get_vms(node)` and `get_containers(node)` return for one node. */
  datatype Host = Host(vms: Option<seq<Guest>>, containers: Option<seq<Guest>>)

  /** `get_nodes()` (names in API order) and the per-node listings. */
  datatype Api = Api(nodeNames: Option<seq<string>>, hosts: map<string, Host>)

  /** Calls into the cluster that change it, and waits. */
  datatype Action =
    | ShutdownWorkload(node: string, vmid: int, kind: Kind, timeout: int)
    | Sleep(seconds: int)
    | PowerOffNode(node: string)
    | WriteTags(node: string, vmid: int, kind: Kind, tags: string)

  datatype LookupError = ApiError | NotFound

  /** The listings of a node; a node the API does not know makes both calls raise. */
  function HostOf(api: Api, name: string): Host {
    if name in api.hosts then api.hosts[name] else Host(None, None)
  }

  /** `any(g['vmid'] == vmid for g in gs)`. */
  predicate Lists(gs: seq<Guest>, vmid: int) {
    exists i :: 0 <= i < |gs| && gs[i].vmid == vmid
  }

  predicate IsRunning(g: Guest) {
    g.status == "running"
  }

  /**
   * `detect_vm_type`: a VM if the node's VM listing holds the id, otherwise a
   * container if its container listing does; the container listing is only
   * asked for when no VM matched.
   */
  function DetectVmType(h: Host, vmid: int): (r: Result<Kind, LookupError>)
    ensures r == Success(Vm) <==> h.vms.Some? && Lists(h.vms.value, vmid)
    ensures r == Success(Container) <==>
      h.vms.Some? && !Lists(h.vms.value, vmid) && h.containers.Some? && Lists(h.containers.value, vmid)
    ensures r == Failure(NotFound) <==>
      h.vms.Some? && !Lists(h.vms.value, vmid) && h.containers.Some? && !Lists(h.containers.value, vmid)
  {
    match h.vms
    case None => Failure(ApiError)
    case Some(vms) =>
      if Lists(vms, vmid) then Success(Vm)
      else match h.containers
        case None => Failure(ApiError)
        case Some(cts) => if Lists(cts, vmid) then Success(Container) else Failure(NotFound)
  }

  /** The node `name` was searched completely and does not hold `vmid`. */
  predicate Absent(api: Api, name: string, vmid: int) {
    DetectVmType(HostOf(api, name), vmid) == Failure(NotFound)
  }

  /**
   * The first node of `names` that holds `vmid`, VMs checked before
   * containers on each node; an API failure on a node reached before any
   * match ends the search.
   */
  function LocateIn(api: Api, names: seq<string>, vmid: int): (r: Result<(string, Kind), LookupError>)
    ensures r.Success? ==> exists i :: (
      && 0 <= i < |names| && r.value.0 == names[i]
      && DetectVmType(HostOf(api, names[i]), vmid) == Success(r.value.1)
      && forall j :: 0 <= j < i ==> Absent(api, names[j], vmid))
    ensures r == Failure(NotFound) <==> forall j :: 0 <= j < |names| ==> Absent(api, names[j], vmid)
    ensures r == Failure(ApiError) ==> exists i :: (
      && 0 <= i < |names|
      && DetectVmType(HostOf(api, names[i]), vmid) == Failure(ApiError)
      && forall j :: 0 <= j < i ==> Absent(api, names[j], vmid))
    decreases |names|
  {
    if names == [] then Failure(NotFound)
    else
      var here := DetectVmType(HostOf(api, names[0]), vmid);
      var r := match here
        case Success(k) => Success((names[0], k))
        case Failure(NotFound) => LocateIn(api, names[1..], vmid)
        case Failure(ApiError) => Failure(ApiError);
      assert here.Failure? && here.error == NotFound ==> forall j :: 1 <= j < |names| ==> names[j] == names[1..][j - 1];
      r
  }

  /** `_find_vm_node` over the whole cluster; a failing `get_nodes()` is an API error. */
  function Locate(api: Api, vmid: int): (r: Result<(string, Kind), LookupError>)
    ensures api.nodeNames.None? ==> r == Failure(ApiError)
    ensures r.Success? ==> api.nodeNames.Some? && r.value.0 in api.nodeNames.value
  {
    match api.nodeNames
    case None => Failure(ApiError)
    case Some(names) => LocateIn(api, names, vmid)
  }

  /** `_find_vm_node`: scans the nodes in order and returns at the first match. */
  method FindVmNode(api: Api, vmid: int) returns (r: Result<(string, Kind), LookupError>)
    ensures r == Locate(api, vmid)
  {
    if api.nodeNames.None? {
      return Failure(ApiError);
    }
    var names := api.nodeNames.value;
    var i := 0;
    while i < |names|
      invariant 0 <= i <= |names|
      invariant LocateIn(api, names, vmid) == LocateIn(api, names[i..], vmid)
    {
      var host := HostOf(api, names[i]);
      assert names[i..][1..] == names[i + 1..];
      if host.vms.None? {
        return Failure(ApiError);
      }
      if Lists(host.vms.value, vmid) {
        return Success((names[i], Vm));
      }
      if host.containers.None? {
        return Failure(ApiError);
      }
      if Lists(host.containers.value, vmid) {
        return Success((names[i], Container));
      }
      i := i + 1;
    }
    return Failure(NotFound);
  }

  /** A node found by the cluster-wide search reports the same kind when asked directly. */
  lemma LocateAgreesWithDetect(api: Api, vmid: int)
    requires Locate(api, vmid).Success?
    ensures var (node, kind) := Locate(api, vmid).value;
      DetectVmType(HostOf(api, node), vmid) == Success(kind)
  {
  }

  /** The elements of `xs` that `keep` accepts, in their original order. */
  function Filter<T>(xs: seq<T>, keep: T -> bool): (ys: seq<T>)
    ensures |ys| <= |xs|
    ensures forall y :: y in ys ==> y in xs && keep(y)
    ensures forall x :: x in xs && keep(x) ==> x in ys
  {
    if xs == [] then []
    else
      var init := xs[..|xs| - 1];
      var last := xs[|xs| - 1];
      assert xs == init + [last];
      Filter(init, keep) + (if keep(last) then [last] else [])
  }

  /** The `for g in gs: if keep(g): selected.append(g)` loops of the services. */
  method SelectGuests(gs: seq<Guest>, keep: Guest -> bool) returns (selected: seq<Guest>)
    ensures selected == Filter(gs, keep)
  {
    selected := [];
    for i := 0 to |gs|
      invariant selected == Filter(gs[..i], keep)
    {
      assert gs[..i + 1][..i] == gs[..i];
      if keep(gs[i]) {
        selected := selected + [gs[i]];
      }
    }
    assert gs[..|gs|] == gs;
  }

  /** Both listings of the node can be read. */
  predicate Listable(h: Host) {
    h.vms.Some? && h.containers.Some?
  }

  /** The listing of one kind on a node, empty when it cannot be read. */
  function Listed(h: Host, k: Kind): seq<Guest> {
    match k
    case Vm => h.vms.GetOr([])
    case Container => h.containers.GetOr([])
  }

  /** One shutdown per selected guest, on the node and of the kind it was listed under. */
  function ShutdownsOn(node: string, k: Kind, gs: seq<Guest>, timeout: int): seq<Action> {
    seq(|gs|, i requires 0 <= i < |gs| => ShutdownWorkload(node, gs[i].vmid, k, timeout))
  }
}
