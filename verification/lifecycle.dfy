/** The four node controllers as sequences of API calls. A reconcile run holds the node as it was
    read when the run started and a program counter that names the next call; one step makes
    that call and computes where the run goes from its answer. */
module Lifecycle {
  import opened Wrappers
  import opened Text
  import opened Cluster
  import opened Answering

  datatype Kind = Provision | Deletion | Bind | Sync

  /** The slugs the provider offers. */
  datatype Catalog = Catalog(sizes: set<string>, regions: set<string>, images: set<string>)

  datatype Pc =
    // provisioning
    | MarkFailed(hash: string)
    | GetNode
    | PushFinalizer(finalizers: seq<string>)
    | ReadPassword
    | WritePassword
    | ReadUserData
    | Lookup
    | CreateServer
    | BindServer(id: int, created: bool)
    | ClearFailed
    // deletion: teardown of a deleted node
    | DeleteServer(id: int)
    | DeletePassword
    | DeleteUserData
    | DropFinalizer
    // deletion: a bound server that is gone
    | CheckServer(id: int)
    | GonePassword
    | GoneUserData
    | GoneNode
    | EnsureFinalizer
    // adoption
    | AdoptLookup
    | AdoptBind(id: int)
    // sync
    | FetchServer(id: int)
    | PatchLabels(server: Server)
    | PatchAddresses(server: Server)
    | Done
    | Failed

  predicate Ended(pc: Pc) { pc.Done? || pc.Failed? }

  // ---------- validation and the failure latch ----------

  function LabelOr(labels: map<string, string>, key: string): string {
    if key in labels then labels[key] else ""
  }

  /** `config_hash` */
  function ConfigHash(labels: map<string, string>): string {
    LabelOr(labels, LABEL_SIZE) + "|" + LabelOr(labels, LABEL_REGION) + "|" + LabelOr(labels, LABEL_IMAGE)
  }

  predicate Valid(labels: map<string, string>, c: Catalog) {
    && LABEL_SIZE in labels && LABEL_REGION in labels && LABEL_IMAGE in labels
    && labels[LABEL_SIZE] in c.sizes
    && labels[LABEL_REGION] in c.regions
    && labels[LABEL_IMAGE] in c.images
  }

  predicate Latched(n: Node) {
    ANNOTATION_PROVISION_FAILED in n.annotations && n.annotations[ANNOTATION_PROVISION_FAILED] == ConfigHash(n.labels)
  }

  // ---------- where each controller starts ----------

  function BeginProvision(n: Node, c: Catalog): Pc {
    if LABEL_SERVER_ID in n.labels || n.deleting || !HasProvisionLabels(n) || Latched(n) then Done
    else if !Valid(n.labels, c) then MarkFailed(ConfigHash(n.labels))
    else GetNode
  }

  function BeginDeletion(n: Node): Pc {
    var id := BoundId(n);
    if id.None? && !HasFinalizer(n) && !HasProvisionLabels(n) then Done
    else if n.deleting && HasFinalizer(n) then
      if id.Some? then DeleteServer(id.value) else DeletePassword
    else if id.Some? then CheckServer(id.value)
    else KeepFinalizer(n)
  }

  function KeepFinalizer(n: Node): Pc {
    if (BoundId(n).Some? || HasProvisionLabels(n) || ANNOTATION_ADOPT in n.annotations) && !HasFinalizer(n)
    then EnsureFinalizer
    else Done
  }

  function BeginBind(n: Node): Pc {
    if ANNOTATION_ADOPT in n.annotations && LABEL_SERVER_ID !in n.labels then AdoptLookup else Done
  }

  function BeginSync(n: Node): Pc {
    if n.deleting then Done
    else
      match BoundId(n)
      case Some(id) => FetchServer(id)
      case None => Done
  }

  function Begin(kind: Kind, n: Node, c: Catalog): Pc {
    match kind
    case Provision => BeginProvision(n, c)
    case Deletion => BeginDeletion(n)
    case Bind => BeginBind(n)
    case Sync => BeginSync(n)
  }

  // ---------- what sync wants ----------

  const LABEL_INSTANCE_TYPE := "node.kubernetes.io/instance-type"
  const LABEL_TOPOLOGY_REGION := "topology.kubernetes.io/region"
  const LABEL_CLOUD_PROVIDER := "node.kubernetes.io/cloud-provider"

  function AddressOf(net: Network, vpc: Option<int>): Option<Address> {
    if net.kind == "public" then Some(Address("ExternalIP", net.address))
    else if net.kind == "private" && vpc.Some? then Some(Address("InternalIP", net.address))
    else None
  }

  function NetworkAddresses(networks: seq<Network>, vpc: Option<int>): seq<Address> {
    if networks == [] then []
    else
      var last := |networks| - 1;
      var before := NetworkAddresses(networks[..last], vpc);
      match AddressOf(networks[last], vpc)
      case Some(a) => before + [a]
      case None => before
  }

  function DesiredAddresses(s: Server): seq<Address> {
    NetworkAddresses(s.networks, s.vpc) + [Address("Hostname", s.name)]
  }

  function DesiredLabels(s: Server): map<string, string> {
    map[LABEL_INSTANCE_TYPE := s.size, LABEL_TOPOLOGY_REGION := s.region, LABEL_CLOUD_PROVIDER := PROVIDER_NAME]
  }

  function WithoutUninitialized(taints: seq<Taint>): (r: seq<Taint>)
    ensures forall t :: t in r <==> t in taints && t.key != UNINITIALIZED_TAINT
  {
    if taints == [] then []
    else (if taints[0].key == UNINITIALIZED_TAINT then [] else [taints[0]]) + WithoutUninitialized(taints[1..])
  }

  predicate Uninitialized(n: Node) {
    exists t :: t in n.taints && t.key == UNINITIALIZED_TAINT
  }

  predicate NeedsPatch(n: Node, s: Server) {
    Uninitialized(n)
    || exists k :: k in DesiredLabels(s) && !(k in n.labels && n.labels[k] == DesiredLabels(s)[k])
  }

  predicate NeedsAddresses(n: Node, s: Server) {
    n.addresses != DesiredAddresses(s)
  }

  // ---------- the patches ----------

  function BindPatch(id: int): NodePatch {
    EMPTY_PATCH.(labels := map[LABEL_SERVER_ID := Some(PrintInt(id))], providerId := Some(ServerProviderId(id)))
  }

  function FinalizerPatch(finalizers: seq<string>): NodePatch {
    EMPTY_PATCH.(finalizers := Some(finalizers))
  }

  function FailedPatch(value: Option<string>): NodePatch {
    EMPTY_PATCH.(annotations := map[ANNOTATION_PROVISION_FAILED := value])
  }

  /** Sync sends every label of the node as read, with the desired ones on top. */
  function SyncPatch(n: Node, s: Server): NodePatch {
    EMPTY_PATCH.(labels := Assign(n.labels + DesiredLabels(s)), taints := Some(WithoutUninitialized(n.taints)))
  }

  function AddressPatch(s: Server): NodePatch {
    EMPTY_PATCH.(addresses := Some(DesiredAddresses(s)))
  }

  /** A patch call: where the run goes if it succeeds, otherwise it fails. */
  function Patch(w: World, name: string, p: NodePatch, next: Pc): (World, Pc) {
    match PatchNode(w, name, p)
    case Some(v) => (v, next)
    case None => (w, Failed)
  }

  /** A patch call whose error is only logged. */
  function TryPatch(w: World, name: string, p: NodePatch, next: Pc): (World, Pc) {
    match PatchNode(w, name, p)
    case Some(v) => (v, next)
    case None => (w, next)
  }

  function NewServer(name: string, n: Node): Server {
    var (size, region, image) :=
      (LabelOr(n.labels, LABEL_SIZE), LabelOr(n.labels, LABEL_REGION), LabelOr(n.labels, LABEL_IMAGE));
    Server(name, size, region, image, None, [])
  }

  /** One call of a run on node `name`, which was read as `n`. */
  function Step(w: World, name: string, n: Node, pc: Pc): (World, Pc) {
    match pc
    case MarkFailed(hash) => TryPatch(w, name, FailedPatch(Some(hash)), Done)
    case GetNode =>
      if name !in w.nodes then (w, Failed)
      else if HasFinalizer(w.nodes[name]) then (w, ReadPassword)
      else (w, PushFinalizer(w.nodes[name].finalizers + [FINALIZER]))
    case PushFinalizer(finalizers) => Patch(w, name, FinalizerPatch(finalizers), ReadPassword)
    case ReadPassword => (w, if PasswordSecret(name) in w.secrets then ReadUserData else WritePassword)
    case WritePassword => (PutSecret(w, PasswordSecret(name)), ReadUserData)
    case ReadUserData => (w, Lookup)
    case Lookup =>
      (match FindServer(w, name)
       case Some(id) => (w, BindServer(id, false))
       case None => (w, CreateServer))
    case CreateServer =>
      (match AddServer(w, NewServer(name, n))
       case Some((v, id)) => (v, BindServer(id, true))
       case None => (w, Failed))
    case BindServer(id, _) => Patch(w, name, BindPatch(id), ClearFailed)
    case ClearFailed => TryPatch(w, name, FailedPatch(None), Done)
    case DeleteServer(id) => (DropServer(w, id), DeletePassword)
    case DeletePassword => (DropSecret(w, PasswordSecret(name)), DeleteUserData)
    case DeleteUserData => (DropSecret(w, UserDataSecret(name)), DropFinalizer)
    case DropFinalizer => Patch(w, name, FinalizerPatch(WithoutFinalizer(n.finalizers)), Done)
    case CheckServer(id) => (w, if id in w.servers then KeepFinalizer(n) else GonePassword)
    case GonePassword => (DropSecret(w, PasswordSecret(name)), GoneUserData)
    case GoneUserData => (DropSecret(w, UserDataSecret(name)), GoneNode)
    case GoneNode =>
      (match DeleteNode(w, name)
       case Some(v) => (v, Done)
       case None => (w, Failed))
    case EnsureFinalizer => Patch(w, name, FinalizerPatch(n.finalizers + [FINALIZER]), Done)
    case AdoptLookup =>
      (match FindServer(w, name)
       case Some(id) => (w, AdoptBind(id))
       case None => (w, Done))
    case AdoptBind(id) => Patch(w, name, BindPatch(id), Done)
    case FetchServer(id) =>
      if id !in w.servers then (w, Done)
      else if NeedsPatch(n, w.servers[id]) then (w, PatchLabels(w.servers[id]))
      else if NeedsAddresses(n, w.servers[id]) then (w, PatchAddresses(w.servers[id]))
      else (w, Done)
    case PatchLabels(s) => Patch(w, name, SyncPatch(n, s), if NeedsAddresses(n, s) then PatchAddresses(s) else Done)
    case PatchAddresses(s) => Patch(w, name, AddressPatch(s), Done)
    case Done => (w, Done)
    case Failed => (w, Failed)
  }

  /** A call that gets an error answer and has no effect. Reading the password secret takes any
      error for an absent secret, and two patches are only best effort. */
  function Fault(pc: Pc): Pc {
    match pc
    case ReadPassword => WritePassword
    case MarkFailed(_) => Done
    case ClearFailed => Done
    case _ => Failed
  }

  function StepAnswered(w: World, name: string, n: Node, pc: Pc, answered: bool): (World, Pc) {
    if answered then Step(w, name, n, pc) else (w, Fault(pc))
  }

  function Calls(w: World, name: string, n: Node, pc: Pc, answers: Answers): (World, Pc)
    decreases answers
  {
    if Ended(pc) || answers == [] then (w, pc)
    else
      var (v, next) := StepAnswered(w, name, n, pc, answers[0]);
      Calls(v, name, n, next, answers[1..])
  }

  /** A call that is answered makes its step. */
  lemma AnsweredCall(w: World, name: string, n: Node, pc: Pc, answers: Answers)
    requires !Ended(pc) && Answered(answers) >= 1
    ensures var (v, next) := Step(w, name, n, pc);
      Calls(w, name, n, pc, answers) == Calls(v, name, n, next, answers[1..])
    ensures Answered(answers[1..]) == Answered(answers) - 1
  {
  }

  /** An error answer ends the run without effect, except where the code goes on: to write a new password after a
      failed read, and past the two patches of the failure mark. */
  lemma ErrorEndsRun(w: World, name: string, n: Node, pc: Pc, answers: Answers)
    requires !Ended(pc) && answers != [] && !answers[0]
    ensures Calls(w, name, n, pc, answers) ==
      if pc.ReadPassword? then Calls(w, name, n, WritePassword, answers[1..])
      else (w, if pc.MarkFailed? || pc.ClearFailed? then Done else Failed)
  {
    assert Ended(Fault(pc)) ==> Calls(w, name, n, Fault(pc), answers[1..]) == (w, Fault(pc));
  }
}
