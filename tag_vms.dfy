/**
 * The tagging script: for each requested id, find where the guest lives,
 * read its current tags and, if the tag is missing, write back the old tags
 * followed by the new one, joined with `;`.
 */
module TagVms {
  import opened Wrappers
  import opened Tags
  import opened Inventory

  /** The string written for a guest whose current tags are `current`, or `None` when the tag is already there. */
  function NewTagString(current: seq<string>, tag: string): Option<string> {
    if tag in current then None else Some(Join(current + [tag]))
  }

  /** The configuration of the first listed guest with id `vmid`; reading an unlisted one raises. */
  function ConfigIn(gs: seq<Guest>, vmid: int): (f: TagFetch)
    ensures !Lists(gs, vmid) ==> f == FetchFailed
  {
    if gs == [] then FetchFailed
    else if gs[0].vmid == vmid then gs[0].config
    else
      var f := ConfigIn(gs[1..], vmid);
      assert Lists(gs[1..], vmid) ==> Lists(gs, vmid) by {
        if Lists(gs[1..], vmid) {
          var i :| 0 <= i < |gs[1..]| && gs[1..][i].vmid == vmid;
          assert gs[i + 1].vmid == vmid;
        }
      }
      f
  }

  /** What `config.get()` on `qemu(vmid)` or `lxc(vmid)` of `node` returns. */
  function ConfigOf(api: Api, node: string, kind: Kind, vmid: int): TagFetch {
    var listing := if kind == Vm then HostOf(api, node).vms else HostOf(api, node).containers;
    match listing
    case None => FetchFailed
    case Some(gs) => ConfigIn(gs, vmid)
  }

  /** Where the script looks for `vmid`: the whole cluster, or only the node given on the command line. */
  function Resolve(api: Api, vmid: int, node: Option<string>): Result<(string, Kind), LookupError> {
    match node
    case None => Locate(api, vmid)
    case Some(n) =>
      match DetectVmType(HostOf(api, n), vmid)
      case Success(k) => Success((n, k))
      case Failure(e) => Failure(e)
  }

  /**
   * One iteration of `tag_vms`: a failed lookup is logged and skipped, a
   * present tag writes nothing; otherwise one write puts the current tags
   * followed by the new one on the node and kind where the guest was found.
   */
  function TagOne(api: Api, vmid: int, tag: string, node: Option<string>): (w: seq<Action>)
    ensures |w| <= 1
    ensures w == [] <==> (
      || Resolve(api, vmid, node).Failure?
      || tag in GetVmTags(ConfigOf(api, Resolve(api, vmid, node).value.0, Resolve(api, vmid, node).value.1, vmid)))
    ensures w != [] ==>
      && w[0].WriteTags? && w[0].vmid == vmid
      && Resolve(api, vmid, node) == Success((w[0].node, w[0].kind))
      && w[0].tags == Join(GetVmTags(ConfigOf(api, w[0].node, w[0].kind, vmid)) + [tag])
  {
    match Resolve(api, vmid, node)
    case Failure(_) => []
    case Success((n, k)) =>
      match NewTagString(GetVmTags(ConfigOf(api, n, k, vmid)), tag)
      case None => []
      case Some(s) => [WriteTags(n, vmid, k, s)]
  }

  /** The listing after `config.put(tags=s)` on guest `vmid`: only that guest's configuration changes. */
  function PutTags(gs: seq<Guest>, vmid: int, s: string): (r: seq<Guest>)
    ensures |r| == |gs|
    ensures forall i :: 0 <= i < |gs| ==> r[i].vmid == gs[i].vmid && r[i].status == gs[i].status
  {
    seq(|gs|, i requires 0 <= i < |gs| => if gs[i].vmid == vmid then gs[i].(config := Fetched(Some(s))) else gs[i])
  }

  /** The cluster after an action has been carried out: only a `WriteTags` action changes a configuration. */
  function ApplyWrite(api: Api, w: Action): Api {
    match w
    case WriteTags(n, vmid, k, s) =>
      if n !in api.hosts then api
      else
        var h := api.hosts[n];
        var h' := match k
          case Vm => h.(vms := if h.vms.None? then None else Some(PutTags(h.vms.value, vmid, s)))
          case Container => h.(containers := if h.containers.None? then None else Some(PutTags(h.containers.value, vmid, s)));
        api.(hosts := api.hosts[n := h'])
    case _ => api
  }

  /** The cluster after the actions `ws` have been carried out in order. */
  function ApplyAll(api: Api, ws: seq<Action>): Api
    decreases |ws|
  {
    if ws == [] then api else ApplyWrite(ApplyAll(api, ws[..|ws| - 1]), ws[|ws| - 1])
  }

  lemma {:induction false} ApplyAllAppend(api: Api, ws: seq<Action>, more: seq<Action>)
    ensures ApplyAll(api, ws + more) == ApplyAll(ApplyAll(api, ws), more)
    decreases |more|
  {
    if more == [] {
      assert ws + more == ws;
    } else {
      var k := |more| - 1;
      assert (ws + more)[..|ws + more| - 1] == ws + more[..k];
      ApplyAllAppend(api, ws, more[..k]);
    }
  }

  /**
   * All writes of `tag_vms` for `vmids`, in order. The script reads the tags
   * afresh for every id, so each id is decided on the cluster as the writes
   * for the ids before it have left it.
   */
  function TagAll(api: Api, vmids: seq<int>, tag: string, node: Option<string>): (r: seq<Action>)
    ensures |r| <= |vmids|
    decreases |vmids|
  {
    if vmids == [] then []
    else
      var ws := TagAll(api, vmids[..|vmids| - 1], tag, node);
      ws + TagOne(ApplyAll(api, ws), vmids[|vmids| - 1], tag, node)
  }

  lemma TagAllStep(api: Api, vmids: seq<int>, tag: string, node: Option<string>, i: nat)
    requires i < |vmids|
    ensures var ws := TagAll(api, vmids[..i], tag, node);
      TagAll(api, vmids[..i + 1], tag, node) == ws + TagOne(ApplyAll(api, ws), vmids[i], tag, node)
  {
    assert vmids[..i + 1][..i] == vmids[..i];
  }

  /** The body of the `tag_vms` loop for one id, returning its writes and the cluster after them. */
  method TagVm(api: Api, vmid: int, tag: string, node: Option<string>) returns (writes: seq<Action>, after: Api)
    ensures writes == TagOne(api, vmid, tag, node)
    ensures after == ApplyAll(api, writes)
  {
    writes := [];
    after := api;
    var resolved: Result<(string, Kind), LookupError>;
    if node.None? {
      resolved := FindVmNode(api, vmid);
    } else {
      var kind := DetectVmType(HostOf(api, node.value), vmid);
      resolved := if kind.Success? then Success((node.value, kind.value)) else Failure(kind.error);
    }
    if resolved.Success? {
      var (n, k) := resolved.value;
      var current := GetVmTags(ConfigOf(api, n, k, vmid));
      if tag !in current {
        var w := WriteTags(n, vmid, k, Join(current + [tag]));
        writes := [w];
        after := ApplyWrite(api, w);
        assert writes[..0] == [];
      }
    }
  }

  /**
   * `tag_vms`: every id is handled on its own, on the cluster as the earlier
   * writes left it; an id that cannot be found produces no write and the
   * loop goes on with the next one.
   */
  method TagVmsLoop(api: Api, vmids: seq<int>, tag: string, node: Option<string>) returns (writes: seq<Action>, cluster: Api)
    ensures writes == TagAll(api, vmids, tag, node)
    ensures cluster == ApplyAll(api, writes)
  {
    writes := [];
    cluster := api;
    for i := 0 to |vmids|
      invariant writes == TagAll(api, vmids[..i], tag, node)
      invariant cluster == ApplyAll(api, writes)
    {
      TagAllStep(api, vmids, tag, node, i);
      var more, after := TagVm(cluster, vmids[i], tag, node);
      ApplyAllAppend(api, writes, more);
      writes := writes + more;
      cluster := after;
    }
    assert vmids[..|vmids|] == vmids;
  }

  /** Write `k` of `ws` is for one of `vmids`, whose guest lacked `tag` on the cluster the writes before it left. */
  predicate WriteOfMissingTag(api: Api, ws: seq<Action>, k: nat, vmids: seq<int>, tag: string)
    requires k < |ws|
  {
    && ws[k].WriteTags? && ws[k].vmid in vmids
    && tag !in GetVmTags(ConfigOf(ApplyAll(api, ws[..k]), ws[k].node, ws[k].kind, ws[k].vmid))
  }

  /**
   * Every write lands on one of the requested ids, and only for a guest that
   * lacked the tag when it was read, after the writes before it.
   */
  lemma {:induction false} WritesOnlyMissingTags(api: Api, vmids: seq<int>, tag: string, node: Option<string>)
    ensures forall k :: 0 <= k < |TagAll(api, vmids, tag, node)| ==>
      WriteOfMissingTag(api, TagAll(api, vmids, tag, node), k, vmids, tag)
    decreases |vmids|
  {
    if vmids != [] {
      var init := vmids[..|vmids| - 1];
      WritesOnlyMissingTags(api, init, tag, node);
      var ws := TagAll(api, init, tag, node);
      var one := TagOne(ApplyAll(api, ws), vmids[|vmids| - 1], tag, node);
      var all := ws + one;
      assert all == TagAll(api, vmids, tag, node);
      forall k | 0 <= k < |all|
        ensures WriteOfMissingTag(api, all, k, vmids, tag)
      {
        if k < |ws| {
          assert WriteOfMissingTag(api, ws, k, init, tag);
          assert all[..k] == ws[..k];
          assert all[k] == ws[k];
          assert ws[k].vmid in vmids;
        } else {
          assert all[..k] == ws;
          assert all[k] == one[0];
        }
      }
    }
  }

  /** The written string reads back as the old tags followed by the new one. */
  lemma WrittenTagsRoundTrip(current: seq<string>, tag: string)
    requires forall t :: t in current ==> WellFormedTag(t)
    requires WellFormedTag(tag)
    requires NewTagString(current, tag).Some?
    ensures ParseTagString(NewTagString(current, tag).value) == current + [tag]
  {
    ParseJoin(current + [tag]);
  }

  /** Once written, the tag is found: deciding again on the written string writes nothing. */
  lemma TaggingIsIdempotent(current: seq<string>, tag: string)
    requires forall t :: t in current ==> WellFormedTag(t)
    requires WellFormedTag(tag)
    ensures var once := NewTagString(current, tag);
      once.Some? ==> NewTagString(ParseTagString(once.value), tag).None?
  {
    if tag !in current {
      WrittenTagsRoundTrip(current, tag);
      assert (current + [tag])[|current|] == tag;
    }
  }

  lemma PutTagsKeepsIds(gs: seq<Guest>, vmid: int, s: string, id: int)
    ensures Lists(PutTags(gs, vmid, s), id) == Lists(gs, id)
  {
    var r := PutTags(gs, vmid, s);
    if Lists(gs, id) {
      var i :| 0 <= i < |gs| && gs[i].vmid == id;
      assert r[i].vmid == id;
    }
    if Lists(r, id) {
      var i :| 0 <= i < |r| && r[i].vmid == id;
      assert gs[i].vmid == id;
    }
  }

  lemma {:induction false} PutTagsReadBack(gs: seq<Guest>, vmid: int, s: string)
    requires Lists(gs, vmid)
    ensures ConfigIn(PutTags(gs, vmid, s), vmid) == Fetched(Some(s))
  {
    var r := PutTags(gs, vmid, s);
    if gs[0].vmid != vmid {
      assert r[1..] == PutTags(gs[1..], vmid, s);
      var i :| 0 <= i < |gs| && gs[i].vmid == vmid;
      assert gs[1..][i - 1].vmid == vmid;
      PutTagsReadBack(gs[1..], vmid, s);
    }
  }

  lemma {:induction false} PutTagsKeepsConfig(gs: seq<Guest>, vmid: int, s: string, other: int)
    requires other != vmid
    ensures ConfigIn(PutTags(gs, vmid, s), other) == ConfigIn(gs, other)
    decreases |gs|
  {
    if gs != [] {
      assert PutTags(gs, vmid, s)[1..] == PutTags(gs[1..], vmid, s);
      PutTagsKeepsConfig(gs[1..], vmid, s, other);
    }
  }

  /** A write for one id leaves the configuration read for every other id as it was. */
  lemma ApplyWriteKeepsOthers(api: Api, w: Action, n: string, k: Kind, vmid: int)
    requires !(w.WriteTags? && w.vmid == vmid)
    ensures ConfigOf(ApplyWrite(api, w), n, k, vmid) == ConfigOf(api, n, k, vmid)
  {
    if w.WriteTags? && w.node in api.hosts && n == w.node && k == w.kind {
      var h := api.hosts[n];
      if k == Vm && h.vms.Some? {
        PutTagsKeepsConfig(h.vms.value, w.vmid, w.tags, vmid);
      }
      if k == Container && h.containers.Some? {
        PutTagsKeepsConfig(h.containers.value, w.vmid, w.tags, vmid);
      }
    }
  }

  /** Writing tags changes no listing's ids, so every node answers `detect_vm_type` as before. */
  lemma ApplyWriteKeepsDetect(api: Api, w: Action, n: string, id: int)
    ensures DetectVmType(HostOf(ApplyWrite(api, w), n), id) == DetectVmType(HostOf(api, n), id)
  {
    if w.WriteTags? && w.node in api.hosts && n == w.node {
      var h := api.hosts[w.node];
      if h.vms.Some? { PutTagsKeepsIds(h.vms.value, w.vmid, w.tags, id); }
      if h.containers.Some? { PutTagsKeepsIds(h.containers.value, w.vmid, w.tags, id); }
    }
  }

  lemma {:induction false} ApplyWriteKeepsLocateIn(api: Api, w: Action, names: seq<string>, id: int)
    ensures LocateIn(ApplyWrite(api, w), names, id) == LocateIn(api, names, id)
    decreases |names|
  {
    if names != [] {
      ApplyWriteKeepsDetect(api, w, names[0], id);
      ApplyWriteKeepsLocateIn(api, w, names[1..], id);
    }
  }

  /** Writing tags does not move any guest: the script finds every id where it found it before. */
  lemma ApplyWriteKeepsResolve(api: Api, w: Action, vmid: int, node: Option<string>)
    ensures Resolve(ApplyWrite(api, w), vmid, node) == Resolve(api, vmid, node)
  {
    match node {
      case None =>
        if api.nodeNames.Some? {
          ApplyWriteKeepsLocateIn(api, w, api.nodeNames.value, vmid);
        }
      case Some(m) =>
        ApplyWriteKeepsDetect(api, w, m, vmid);
    }
  }

  /** Running the script again after its write was applied writes nothing for that id. */
  lemma SecondRunWritesNothing(api: Api, vmid: int, tag: string, node: Option<string>)
    requires WellFormedTag(tag)
    requires |TagOne(api, vmid, tag, node)| == 1
    ensures TagOne(ApplyWrite(api, TagOne(api, vmid, tag, node)[0]), vmid, tag, node) == []
  {
    var w := TagOne(api, vmid, tag, node)[0];
    var api' := ApplyWrite(api, w);
    var (n, k) := Resolve(api, vmid, node).value;
    ApplyWriteKeepsResolve(api, w, vmid, node);
    if node.None? {
      LocateAgreesWithDetect(api, vmid);
    }
    var h := HostOf(api, n);
    var current := GetVmTags(ConfigOf(api, n, k, vmid));
    assert n in api.hosts;
    if k == Vm {
      PutTagsReadBack(h.vms.value, vmid, w.tags);
    } else {
      PutTagsReadBack(h.containers.value, vmid, w.tags);
    }
    assert ConfigOf(api', n, k, vmid) == Fetched(Some(w.tags));
    TaggingIsIdempotent(current, tag);
  }

  /** A write for another id leaves an id that needs no write needing none. */
  lemma OtherWriteKeepsDone(api: Api, u: int, v: int, tag: string, node: Option<string>)
    requires TagOne(api, v, tag, node) == [] && TagOne(api, u, tag, node) != []
    ensures TagOne(ApplyWrite(api, TagOne(api, u, tag, node)[0]), v, tag, node) == []
  {
    var w := TagOne(api, u, tag, node)[0];
    ApplyWriteKeepsResolve(api, w, v, node);
    if Resolve(api, v, node).Success? {
      var (n, k) := Resolve(api, v, node).value;
      ApplyWriteKeepsOthers(api, w, n, k, v);
    }
  }

  /** After the script has run, none of the requested ids needs a write any more. */
  lemma {:induction false} RunLeavesNothingToDo(api: Api, vmids: seq<int>, tag: string, node: Option<string>)
    requires WellFormedTag(tag)
    ensures forall v :: v in vmids ==> TagOne(ApplyAll(api, TagAll(api, vmids, tag, node)), v, tag, node) == []
    decreases |vmids|
  {
    if vmids != [] {
      var init, last := vmids[..|vmids| - 1], vmids[|vmids| - 1];
      RunLeavesNothingToDo(api, init, tag, node);
      var ws := TagAll(api, init, tag, node);
      var cur := ApplyAll(api, ws);
      var one := TagOne(cur, last, tag, node);
      ApplyAllAppend(api, ws, one);
      if one != [] {
        assert ApplyAll(cur, one) == ApplyWrite(cur, one[0]) by {
          assert one[..0] == [];
        }
        SecondRunWritesNothing(cur, last, tag, node);
        forall v | v in init
          ensures TagOne(ApplyWrite(cur, one[0]), v, tag, node) == []
        {
          OtherWriteKeepsDone(cur, last, v, tag, node);
        }
      }
      assert forall v :: v in vmids ==> v in init || v == last;
    }
  }

  /** Ids that need no write produce none. */
  lemma {:induction false} NothingToDoWritesNothing(api: Api, vmids: seq<int>, tag: string, node: Option<string>)
    requires forall v :: v in vmids ==> TagOne(api, v, tag, node) == []
    ensures TagAll(api, vmids, tag, node) == []
    decreases |vmids|
  {
    if vmids != [] {
      var init := vmids[..|vmids| - 1];
      assert forall v :: v in init ==> v in vmids;
      NothingToDoWritesNothing(api, init, tag, node);
      assert vmids[|vmids| - 1] in vmids;
    }
  }

  /** Running the script a second time, with the same ids and tag, on the cluster its first run left, writes nothing. */
  lemma RerunWritesNothing(api: Api, vmids: seq<int>, tag: string, node: Option<string>)
    requires WellFormedTag(tag)
    ensures TagAll(ApplyAll(api, TagAll(api, vmids, tag, node)), vmids, tag, node) == []
  {
    RunLeavesNothingToDo(api, vmids, tag, node);
    NothingToDoWritesNothing(ApplyAll(api, TagAll(api, vmids, tag, node)), vmids, tag, node);
  }

  /** An id requested twice is written at most once: the second time its tag is read back. */
  lemma RepeatedIdWrittenOnce(api: Api, vmid: int, tag: string, node: Option<string>)
    requires WellFormedTag(tag)
    ensures TagAll(api, [vmid, vmid], tag, node) == TagOne(api, vmid, tag, node)
  {
    var ids := [vmid, vmid];
    TagAllStep(api, ids, tag, node, 0);
    TagAllStep(api, ids, tag, node, 1);
    assert ids[..0] == [] && ids[..2] == ids;
    AfterOwnWritesNothing(api, vmid, tag, node);
  }

  /** Once the writes for `vmid` are applied, deciding for `vmid` again writes nothing. */
  lemma AfterOwnWritesNothing(api: Api, vmid: int, tag: string, node: Option<string>)
    requires WellFormedTag(tag)
    ensures TagOne(ApplyAll(api, TagOne(api, vmid, tag, node)), vmid, tag, node) == []
  {
    var one := TagOne(api, vmid, tag, node);
    if one != [] {
      assert one[..0] == [];
      SecondRunWritesNothing(api, vmid, tag, node);
    }
  }

  /**
   * A tag that is not well formed (empty, holding `;`, or with white space
   * around it) is never among the parsed tags, so every run writes it again
   * for a guest the script finds.
   */
  lemma MalformedTagIsRewritten(api: Api, vmid: int, tag: string, node: Option<string>)
    requires !WellFormedTag(tag) && Resolve(api, vmid, node).Success?
    ensures |TagOne(api, vmid, tag, node)| == 1
    ensures |TagOne(ApplyWrite(api, TagOne(api, vmid, tag, node)[0]), vmid, tag, node)| == 1
  {
    ApplyWriteKeepsResolve(api, TagOne(api, vmid, tag, node)[0], vmid, node);
  }

  /** The padded tag `" x"`: written as is, read back as `"x"`, so the next run writes `"x; x"`. */
  lemma PaddedTagIsRewritten()
    ensures NewTagString([], " x") == Some(" x")
    ensures ParseTagString(" x") == ["x"]
    ensures NewTagString(["x"], " x") == Some("x; x")
  {
    SplitNoSeparator(" x");
    assert Strip(" x") == "x" by {
      assert " x"[0] == ' ' && " x"[1..] == "x";
    }
    assert Clean([" x"]) == Kept(" x") + Clean([]);
    assert " x" != "x" by {
      assert |" x"| != |"x"|;
    }
    assert ["x"] + [" x"] == ["x", " x"];
    assert Join(["x", " x"]) == "x" + ";" + " x";
    assert "x" + ";" + " x" == "x; x";
  }

  /** The ids tagged by `--all-vms --node N`: the node's VM ids, then its container ids, in listing order. */
  function AllVmIds(h: Host): (r: Result<seq<int>, LookupError>)
    ensures r.Failure? <==> h.vms.None? || h.containers.None?
    ensures r.Success? ==> (
      && |r.value| == |h.vms.value| + |h.containers.value|
      && (forall i :: 0 <= i < |h.vms.value| ==> r.value[i] == h.vms.value[i].vmid)
      && (forall i :: 0 <= i < |h.containers.value| ==> r.value[|h.vms.value| + i] == h.containers.value[i].vmid))
  {
    match (h.vms, h.containers)
    case (Some(vms), Some(cts)) =>
      Success(seq(|vms|, i requires 0 <= i < |vms| => vms[i].vmid) + seq(|cts|, i requires 0 <= i < |cts| => cts[i].vmid))
    case _ => Failure(ApiError)
  }

  /** With `--all-vms`, every id handed to `tag_vms` is found on the node, so none is skipped as unknown. */
  lemma AllVmIdsAreDetected(h: Host, k: nat)
    requires AllVmIds(h).Success? && k < |AllVmIds(h).value|
    ensures DetectVmType(h, AllVmIds(h).value[k]).Success?
  {
    var vms, cts := h.vms.value, h.containers.value;
    var id := AllVmIds(h).value[k];
    if k < |vms| {
      assert vms[k].vmid == id;
      assert Lists(vms, id);
    } else {
      assert cts[k - |vms|].vmid == id;
      assert Lists(cts, id);
    }
  }
}
