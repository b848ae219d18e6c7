/** Kubernetes nodes, BinaryLane servers and the calls the controllers make on them. */
module Cluster {
  import opened Wrappers
  import opened Text

  const FINALIZER := "blc.samcday.com/server-cleanup"
  const UNINITIALIZED_TAINT := "node.cloudprovider.kubernetes.io/uninitialized"

  const LABEL_ASG := "blc.samcday.com/asg"
  const LABEL_SERVER_ID := "bl.samcday.com/server-id"
  const LABEL_SIZE := "bl.samcday.com/size"
  const LABEL_REGION := "bl.samcday.com/region"
  const LABEL_IMAGE := "bl.samcday.com/image"

  const ANNOTATION_ADOPT := "bl.samcday.com/adopt"
  const ANNOTATION_PROVISION_FAILED := "bl.samcday.com/provision-failed-config"

  const PROVIDER_NAME := "binarylane"

  // ---------- provider ids ----------

  const PROVIDER_PREFIX := PROVIDER_NAME + ":///"

  /** `server_provider_id` */
  function ServerProviderId(id: int): string {
    PROVIDER_PREFIX + PrintInt(id)
  }

  /** `parse_provider_id` */
  function ParseProviderId(pid: string): Option<int> {
    if StartsWith(pid, PROVIDER_PREFIX) then ParseI64(pid[|PROVIDER_PREFIX|..]) else None
  }

  /** Every i64 id survives printing into a provider id and reading it back. */
  lemma ProviderIdRoundTrip(id: int)
    ensures ParseProviderId(ServerProviderId(id)) == if IsI64(id) then Some(id) else None
  {
    ParsePrint(id);
    assert ServerProviderId(id)[|PROVIDER_PREFIX|..] == PrintInt(id);
  }

  /** A provider id names a server exactly if it is `binarylane:///` and text that parses to the id. */
  lemma ProviderIdExact(pid: string, id: int)
    ensures ParseProviderId(pid) == Some(id) <==>
      exists t :: pid == "binarylane:///" + t && ParseI64(t) == Some(id)
  {
    assert PROVIDER_PREFIX == "binarylane:///";
    if StartsWith(pid, PROVIDER_PREFIX) {
      assert pid == PROVIDER_PREFIX + pid[|PROVIDER_PREFIX|..];
    }
    forall t | pid == "binarylane:///" + t ensures StartsWith(pid, PROVIDER_PREFIX) && pid[|PROVIDER_PREFIX|..] == t {}
  }

  // ---------- objects ----------

  datatype Taint = Taint(key: string, value: Option<string>, effect: string)

  datatype Address = Address(kind: string, address: string)

  datatype Node = Node(
    uid: nat,
    labels: map<string, string>,
    annotations: map<string, string>,
    finalizers: seq<string>,
    deleting: bool,
    providerId: Option<string>,
    taints: seq<Taint>,
    addresses: seq<Address>)

  datatype Network = Network(kind: string, address: string)

  datatype Server = Server(
    name: string,
    size: string,
    region: string,
    image: string,
    vpc: Option<int>,
    networks: seq<Network>)

  /** The cluster and the cloud. Server ids and node uids are handed out in increasing order and
      never reused; server ids stay within i64. Of secrets only the names are kept. */
  datatype World = World(
    nodes: map<string, Node>,
    secrets: set<string>,
    servers: map<int, Server>,
    nextServer: int,
    nextUid: nat)

  function PasswordSecret(node: string): string { node + "-node-password" }

  function UserDataSecret(node: string): string { node + "-user-data" }

  /** `secret_to_node_mapper` */
  function SecretToNode(secret: string): Option<string> {
    if EndsWith(secret, "-node-password") then Some(secret[..|secret| - |"-node-password"|])
    else if EndsWith(secret, "-user-data") then Some(secret[..|secret| - |"-user-data"|])
    else None
  }

  /** A node's secrets lead back to that node, so no secret belongs to two nodes. */
  lemma SecretNamesInvert(node: string)
    ensures SecretToNode(PasswordSecret(node)) == Some(node)
    ensures SecretToNode(UserDataSecret(node)) == Some(node)
  {
    var p, u := PasswordSecret(node), UserDataSecret(node);
    assert p[|p| - |"-node-password"|..] == "-node-password" && p[..|p| - |"-node-password"|] == node;
    assert u[|u| - |"-user-data"|..] == "-user-data" && u[..|u| - |"-user-data"|] == node;
    assert u[|u| - 1] == 'a' && "-node-password"[|"-node-password"| - 1] == 'd';
  }

  // ---------- merge patch ----------

  /** A merge patch of a node: what is absent is kept, lists are replaced whole, and a null removes
      a key (section 2 of RFC 7396). */
  datatype NodePatch = NodePatch(
    labels: map<string, Option<string>>,
    annotations: map<string, Option<string>>,
    finalizers: Option<seq<string>>,
    providerId: Option<string>,
    taints: Option<seq<Taint>>,
    addresses: Option<seq<Address>>)

  const EMPTY_PATCH := NodePatch(map[], map[], None, None, None, None)

  function MergeMap(target: map<string, string>, patch: map<string, Option<string>>): (r: map<string, string>)
    ensures forall k :: k !in patch ==> (k in r <==> k in target) && (k in r ==> r[k] == target[k])
    ensures forall k :: k in patch ==> (k in r <==> patch[k].Some?) && (k in r ==> r[k] == patch[k].value)
  {
    map k | k in target.Keys + patch.Keys && (k in patch ==> patch[k].Some?) ::
      if k in patch then patch[k].value else target[k]
  }

  function Assign(m: map<string, string>): map<string, Option<string>> {
    map k | k in m :: Some(m[k])
  }

  function OrElse<T>(o: Option<T>, otherwise: T): T {
    match o
    case Some(v) => v
    case None => otherwise
  }

  function ApplyPatch(n: Node, p: NodePatch): Node {
    n.(labels := MergeMap(n.labels, p.labels),
       annotations := MergeMap(n.annotations, p.annotations),
       finalizers := OrElse(p.finalizers, n.finalizers),
       providerId := if p.providerId.Some? then p.providerId else n.providerId,
       taints := OrElse(p.taints, n.taints),
       addresses := OrElse(p.addresses, n.addresses))
  }

  /** What the API server refuses: changing a provider id that is set, and adding a finalizer to
      an object that is being deleted. */
  predicate PatchAllowed(n: Node, p: NodePatch) {
    && (p.providerId.Some? && n.providerId.Some? ==> p.providerId == n.providerId)
    && (n.deleting && p.finalizers.Some? ==> forall f :: f in p.finalizers.value ==> f in n.finalizers)
  }

  /** A deleted node is gone once its last finalizer is. */
  function PutNode(w: World, name: string, n: Node): World {
    if n.deleting && n.finalizers == [] then w.(nodes := w.nodes - {name})
    else w.(nodes := w.nodes[name := n])
  }

  /** The world with only the node `name` changed. */
  function With(w: World, name: string, n: Node): World {
    w.(nodes := w.nodes[name := n])
  }

  lemma WithTwice(w: World, name: string, n: Node, m: Node)
    ensures With(With(w, name, n), name, m) == With(w, name, m)
  {
    assert w.nodes[name := n][name := m] == w.nodes[name := m];
  }

  lemma WithItself(w: World, name: string)
    requires name in w.nodes
    ensures With(w, name, w.nodes[name]) == w
  {
    assert w.nodes[name := w.nodes[name]] == w.nodes;
  }

  /** The calls. `None` is an error answer without effect. */
  function PatchNode(w: World, name: string, p: NodePatch): Option<World> {
    if name in w.nodes && PatchAllowed(w.nodes[name], p)
    then Some(PutNode(w, name, ApplyPatch(w.nodes[name], p)))
    else None
  }

  function DeleteNode(w: World, name: string): Option<World> {
    if name in w.nodes then Some(PutNode(w, name, w.nodes[name].(deleting := true))) else None
  }

  function CreateNode(w: World, name: string, n: Node): Option<World> {
    if name in w.nodes then None
    else Some(w.(nodes := w.nodes[name := n.(uid := w.nextUid, deleting := false)], nextUid := w.nextUid + 1))
  }

  function PutSecret(w: World, secret: string): World {
    w.(secrets := w.secrets + {secret})
  }

  /** `delete_secret_if_exists`: an absent secret is not an error. */
  function DropSecret(w: World, secret: string): World {
    w.(secrets := w.secrets - {secret})
  }

  /** `delete_server`: an absent server is not an error. */
  function DropServer(w: World, id: int): World {
    w.(servers := w.servers - {id})
  }

  predicate Named(w: World, id: int, name: string) {
    id in w.servers && w.servers[id].name == name
  }

  /** `get_server_by_hostname`: some server with that name, if there is one. Which of several is
      not relied on; the oldest is taken to make this a function. */
  function FindServer(w: World, name: string): (r: Option<int>)
    ensures r.Some? ==> Named(w, r.value, name)
    ensures r.None? ==> forall id :: !Named(w, id, name)
  {
    if exists id | id in w.servers :: Named(w, id, name) then
      var ids := set id | id in w.servers && Named(w, id, name);
      assert exists id :: id in ids by {
        var some :| some in w.servers && Named(w, some, name);
        assert some in ids;
      }
      LeastExists(ids);
      var id :| IsLeast(id, ids);
      Some(id)
    else None
  }

  predicate IsLeast(id: int, ids: set<int>) {
    id in ids && forall i :: i in ids ==> id <= i
  }

  lemma {:induction false} LeastExists(ids: set<int>)
    requires exists id :: id in ids
    ensures exists id :: IsLeast(id, ids)
    decreases ids
  {
    var some :| some in ids;
    if i :| i in ids && i < some {
      var below := set j | j in ids && j < some;
      assert i in below && some !in below;
      LeastExists(below);
      var least :| IsLeast(least, below);
      forall j | j in ids ensures least <= j {
        assert j in below || some <= j;
      }
      assert IsLeast(least, ids);
    } else {
      assert IsLeast(some, ids);
    }
  }

  /** `create_server`: a fresh id, while i64 has one. */
  function AddServer(w: World, s: Server): Option<(World, int)> {
    if w.nextServer > I64_MAX then None
    else Some((w.(servers := w.servers[w.nextServer := s], nextServer := w.nextServer + 1), w.nextServer))
  }

  // ---------- reading a node ----------

  function BoundId(n: Node): Option<int> {
    ParseProviderId(OrElse(n.providerId, ""))
  }

  predicate HasFinalizer(n: Node) {
    FINALIZER in n.finalizers
  }

  predicate HasProvisionLabels(n: Node) {
    LABEL_SIZE in n.labels || LABEL_REGION in n.labels || LABEL_IMAGE in n.labels
  }

  function WithoutFinalizer(fs: seq<string>): (r: seq<string>)
    ensures forall f :: f in r <==> f in fs && f != FINALIZER
  {
    if fs == [] then []
    else (if fs[0] == FINALIZER then [] else [fs[0]]) + WithoutFinalizer(fs[1..])
  }
}
