/** Who owns a server. Regime: crash-atomic. Each reconcile run starts from a fresh read of its
    node, nothing else touches that node while it is under way, and it may stop at any call or
    meet an error at any call. Between runs nodes come and go, are edited by others, and servers
    are changed or lost. Nodes carry no adopt annotation.
 */
module Ownership {
  import opened Wrappers
  import opened Text
  import opened Cluster
  import opened Lifecycle
  import opened Answering
  import opened Interleaved

  /** `pending` is history: the names for which a provision run stopped between creating a server
      and binding it, with no provision run completed since. */
  datatype State = State(w: World, pending: set<string>)

  datatype Event =
    | Reconcile(kind: Kind, name: string, catalog: Catalog, answers: Answers)
    | NodeMade(name: string, node: Node)
    | NodeDeleted(name: string)
    | NodeEdited(name: string, node: Node)
    | ServerEdited(id: int, server: Server)
    | ServerLost(id: int)

  predicate Unbound(n: Node) {
    n.providerId.None? && LABEL_SERVER_ID !in n.labels
  }

  predicate LabelFollows(n: Node) {
    LABEL_SERVER_ID in n.labels <==> n.providerId.Some?
  }

  ghost predicate Possible(s: State, e: Event) {
    match e
    case Reconcile(_, name, _, _) => name in s.w.nodes
    case NodeMade(name, node) => name !in s.w.nodes && Unbound(node) && ANNOTATION_ADOPT !in node.annotations
    case NodeDeleted(name) => name in s.w.nodes
    case NodeEdited(name, node) =>
      && name in s.w.nodes && OthersMay(s.w.nodes[name], node)
      && ANNOTATION_ADOPT !in node.annotations
      && (HasFinalizer(s.w.nodes[name]) ==> HasFinalizer(node))
    case ServerEdited(id, server) => id in s.w.servers && server.name == s.w.servers[id].name
    case ServerLost(id) => id in s.w.servers
  }

  function Outcome(w: World, kind: Kind, name: string, c: Catalog, answers: Answers): (World, Pc)
    requires name in w.nodes
  {
    Calls(w, name, w.nodes[name], Begin(kind, w.nodes[name], c), answers)
  }

  /** The run validated the node's configuration and got past its bind call. */
  predicate Completed(kind: Kind, n: Node, c: Catalog, last: Pc) {
    kind == Provision && BeginProvision(n, c) == GetNode && (last.ClearFailed? || last.Done?)
  }

  /** The run created a server and did not get past its bind call. */
  predicate StoppedBetween(before: World, after: World, kind: Kind, n: Node, c: Catalog, last: Pc) {
    after.nextServer > before.nextServer && !Completed(kind, n, c, last)
  }

  function After(s: State, e: Event): State
    requires Possible(s, e)
  {
    match e
    case Reconcile(kind, name, c, answers) =>
      var n := s.w.nodes[name];
      var (w, last) := Outcome(s.w, kind, name, c, answers);
      State(w,
            if Completed(kind, n, c, last) then s.pending - {name}
            else if StoppedBetween(s.w, w, kind, n, c, last) then s.pending + {name}
            else s.pending)
    case NodeMade(name, node) => s.(w := CreateNode(s.w, name, node).value)
    case NodeDeleted(name) => s.(w := DeleteNode(s.w, name).value)
    case NodeEdited(name, node) => s.(w := PutNode(s.w, name, node))
    case ServerEdited(id, server) => s.(w := s.w.(servers := s.w.servers[id := server]))
    case ServerLost(id) => s.(w := DropServer(s.w, id))
  }

  ghost predicate Legal(s: State, events: seq<Event>)
    decreases events
  {
    events == [] || (Possible(s, events[0]) && Legal(After(s, events[0]), events[1..]))
  }

  ghost function Exec(s: State, events: seq<Event>): State
    requires Legal(s, events)
    decreases events
  {
    if events == [] then s else Exec(After(s, events[0]), events[1..])
  }

  ghost predicate Initial(s: State) {
    && s.w.servers == map[] && 0 <= s.w.nextServer <= I64_MAX + 1 && s.pending == {}
    && forall name :: name in s.w.nodes ==> Unbound(s.w.nodes[name]) && ANNOTATION_ADOPT !in s.w.nodes[name].annotations
  }

  // ---------- the invariant ----------

  /** The server is named by the provider id of the node of its name, which holds our finalizer. */
  predicate OwnedBy(w: World, name: string, id: int) {
    name in w.nodes && w.nodes[name].providerId == Some(ServerProviderId(id)) && HasFinalizer(w.nodes[name])
  }

  ghost predicate NodesOk(w: World) {
    forall name :: name in w.nodes ==> LabelFollows(w.nodes[name]) && ANNOTATION_ADOPT !in w.nodes[name].annotations
  }

  /** Every server is owned, or its name is pending, or it has the name excused. */
  ghost predicate AllOwned(w: World, pending: set<string>, excused: set<string>) {
    forall id :: id in w.servers ==>
      OwnedBy(w, w.servers[id].name, id) || w.servers[id].name in pending || w.servers[id].name in excused
  }

  ghost predicate PendingUnbound(w: World, pending: set<string>) {
    forall name :: name in pending && name in w.nodes ==> w.nodes[name].providerId.None?
  }

  ghost predicate Inv(s: State) {
    ServersOk(s.w) && NodesOk(s.w) && AllOwned(s.w, s.pending, {}) && PendingUnbound(s.w, s.pending)
  }

  /** A change to one node that keeps other nodes and the servers keeps what others own. */
  lemma OneNodeChanged(w: World, v: World, name: string, pending: set<string>, excused: set<string>)
    requires v.servers == w.servers && v.nextServer == w.nextServer && AllOwned(w, pending, excused)
    requires forall x :: x != name ==> (x in v.nodes <==> x in w.nodes) && (x in v.nodes ==> v.nodes[x] == w.nodes[x])
    requires forall id :: id in w.servers && w.servers[id].name == name && OwnedBy(w, name, id) ==>
               OwnedBy(v, name, id) || name in excused
    ensures AllOwned(v, pending, excused)
    ensures forall id, x :: Named(v, id, x) <==> Named(w, id, x)
    ensures ServersOk(w) ==> ServersOk(v)
  {
    assert forall id, x :: Named(v, id, x) <==> Named(w, id, x);
    forall id | id in v.servers
      ensures OwnedBy(v, v.servers[id].name, id) || v.servers[id].name in pending || v.servers[id].name in excused
    {
      var owner := w.servers[id].name;
      if owner != name && OwnedBy(w, owner, id) {
        assert v.nodes[owner] == w.nodes[owner];
      }
    }
  }

  // ---------- provision runs ----------

  predicate BeforeBind(pc: Pc) {
    pc.GetNode? || pc.PushFinalizer? || pc.ReadPassword? || pc.WritePassword? || pc.ReadUserData?
    || pc.Lookup? || pc.CreateServer? || pc.BindServer?
  }

  predicate PastFinalizer(pc: Pc) {
    pc.ReadPassword? || pc.WritePassword? || pc.ReadUserData? || pc.Lookup? || pc.CreateServer? || pc.BindServer?
  }

  /** What holds while a validated provision run that began with `first` as next server id is
      under way: any server of its name that nobody owns was created by the run itself. */
  ghost predicate ProvisionRun(w: World, pending: set<string>, name: string, pc: Pc, first: int) {
    && ServersOk(w) && NodesOk(w) && RunKnows(w, name, pc) && name in w.nodes && first <= w.nextServer
    && (BeforeBind(pc) || pc.ClearFailed? || Ended(pc))
    && (BeforeBind(pc) ==> Unbound(w.nodes[name]))
    && (BeforeBind(pc) || pc.ClearFailed? ==> !w.nodes[name].deleting)
    && (PastFinalizer(pc) ==> HasFinalizer(w.nodes[name]))
    && (pc.BindServer? ==> Named(w, pc.id, name))
    && (pc.PushFinalizer? ==> FINALIZER in pc.finalizers)
    && (pc.Failed? ==> w.nodes[name].providerId.None?)
    && (pc.ClearFailed? || pc.Done? ==> forall id :: Named(w, id, name) ==> OwnedBy(w, name, id))
    && AllOwned(w, pending, if w.nextServer > first then {name} else {})
    && PendingUnbound(w, pending - (if pc.ClearFailed? || pc.Done? then {name} else {}))
  }

  lemma PatchedProvision(w: World, pending: set<string>, name: string, pc: Pc, first: int, p: NodePatch, next: Pc)
    requires ProvisionRun(w, pending, name, pc, first) && BeforeBind(pc) && !pc.BindServer?
    requires p.labels == map[] && p.annotations == map[] && p.providerId.None?
    requires p.finalizers.Some? ==> FINALIZER in p.finalizers.value
    requires next.ReadPassword? && p.finalizers.Some?
    ensures PatchNode(w, name, p).Some?
    ensures ProvisionRun(PatchNode(w, name, p).value, pending, name, next, first)
  {
    var n, v := w.nodes[name], PatchNode(w, name, p).value;
    assert MergeMap(n.labels, p.labels) == n.labels && MergeMap(n.annotations, p.annotations) == n.annotations;
    assert v.nodes[name] == ApplyPatch(n, p);
    OneNodeChanged(w, v, name, pending, if w.nextServer > first then {name} else {});
  }

  lemma BindProvision(w: World, pending: set<string>, name: string, pc: Pc, first: int)
    requires ProvisionRun(w, pending, name, pc, first) && pc.BindServer?
    ensures PatchNode(w, name, BindPatch(pc.id)).Some?
    ensures ProvisionRun(PatchNode(w, name, BindPatch(pc.id)).value, pending, name, ClearFailed, first)
    ensures OwnedBy(PatchNode(w, name, BindPatch(pc.id)).value, name, pc.id)
  {
    var n, p := w.nodes[name], BindPatch(pc.id);
    var v := PatchNode(w, name, p).value;
    assert v.nodes[name] == ApplyPatch(n, p);
    OneNodeChanged(w, v, name, pending, if w.nextServer > first then {name} else {});
    forall id | Named(v, id, name) ensures OwnedBy(v, name, id) {
      assert Named(w, id, name) && Named(w, pc.id, name);
    }
  }

  lemma ClearProvision(w: World, pending: set<string>, name: string, first: int)
    requires ProvisionRun(w, pending, name, ClearFailed, first)
    ensures ProvisionRun(TryPatch(w, name, FailedPatch(None), Done).0, pending, name, Done, first)
  {
    var v := TryPatch(w, name, FailedPatch(None), Done).0;
    var n := w.nodes[name];
    if PatchNode(w, name, FailedPatch(None)).Some? {
      assert MergeMap(n.labels, map[]) == n.labels;
      OneNodeChanged(w, v, name, pending, if w.nextServer > first then {name} else {});
    }
  }

  lemma CreateProvision(w: World, pending: set<string>, name: string, n: Node, first: int)
    requires ProvisionRun(w, pending, name, CreateServer, first)
    ensures var (v, next) := Step(w, name, n, CreateServer); ProvisionRun(v, pending, name, next, first)
  {
    var (v, next) := Step(w, name, n, CreateServer);
    StepKnows(w, name, n, CreateServer);
    if next.BindServer? {
      forall id | id in v.servers
        ensures OwnedBy(v, v.servers[id].name, id) || v.servers[id].name in pending || v.servers[id].name in {name}
      {
        assert id == w.nextServer || v.servers[id] == w.servers[id];
      }
      assert Named(v, next.id, name);
    }
  }

  lemma ReadProvision(w: World, pending: set<string>, name: string, n: Node, pc: Pc, first: int)
    requires ProvisionRun(w, pending, name, pc, first) && (pc.GetNode? || pc.ReadPassword? || pc.ReadUserData?)
    ensures var (v, next) := Step(w, name, n, pc); ProvisionRun(v, pending, name, next, first)
  {
  }

  lemma LookupProvision(w: World, pending: set<string>, name: string, n: Node, first: int)
    requires ProvisionRun(w, pending, name, Lookup, first)
    ensures var (v, next) := Step(w, name, n, Lookup); ProvisionRun(v, pending, name, next, first)
  {
    assert FindServer(w, name).Some? ==> Named(w, FindServer(w, name).value, name);
  }

  lemma PasswordProvision(w: World, pending: set<string>, name: string, first: int)
    requires ProvisionRun(w, pending, name, WritePassword, first)
    ensures ProvisionRun(PutSecret(w, PasswordSecret(name)), pending, name, ReadUserData, first)
  {
    var excused := if w.nextServer > first then {name} else {};
    OneNodeChanged(w, PutSecret(w, PasswordSecret(name)), name, pending, excused);
  }

  lemma FinalizerProvision(w: World, pending: set<string>, name: string, n: Node, pc: Pc, first: int)
    requires ProvisionRun(w, pending, name, pc, first) && pc.PushFinalizer?
    ensures var (v, next) := Step(w, name, n, pc); ProvisionRun(v, pending, name, next, first)
  {
    PatchedProvision(w, pending, name, pc, first, FinalizerPatch(pc.finalizers), ReadPassword);
  }

  lemma FaultProvision(w: World, pending: set<string>, name: string, pc: Pc, first: int)
    requires ProvisionRun(w, pending, name, pc, first) && !Ended(pc)
    ensures ProvisionRun(w, pending, name, Fault(pc), first)
  {
  }

  /** Each call of a provision run, answered or not, keeps what holds during it. */
  lemma ProvisionStep(w: World, pending: set<string>, name: string, n: Node, pc: Pc, answered: bool, first: int)
    requires ProvisionRun(w, pending, name, pc, first) && !Ended(pc)
    ensures var (v, next) := StepAnswered(w, name, n, pc, answered); ProvisionRun(v, pending, name, next, first)
  {
    if !answered {
      FaultProvision(w, pending, name, pc, first);
    } else {
      match pc
      case PushFinalizer(_) => FinalizerProvision(w, pending, name, n, pc, first);
      case WritePassword => PasswordProvision(w, pending, name, first);
      case Lookup => LookupProvision(w, pending, name, n, first);
      case CreateServer => CreateProvision(w, pending, name, n, first);
      case BindServer(_, _) => BindProvision(w, pending, name, pc, first);
      case ClearFailed => ClearProvision(w, pending, name, first);
      case _ => ReadProvision(w, pending, name, n, pc, first);
    }
  }

  lemma {:induction false} ProvisionCalls(w: World, pending: set<string>, name: string, n: Node, pc: Pc,
                                          answers: Answers, first: int)
    requires ProvisionRun(w, pending, name, pc, first)
    ensures var (v, last) := Calls(w, name, n, pc, answers); ProvisionRun(v, pending, name, last, first)
    decreases answers
  {
    if !Ended(pc) && answers != [] {
      ProvisionStep(w, pending, name, n, pc, answers[0], first);
      var (v, next) := StepAnswered(w, name, n, pc, answers[0]);
      ProvisionCalls(v, pending, name, n, next, answers[1..], first);
    }
  }

  // ---------- deletion and sync runs ----------

  predicate TeardownPc(pc: Pc) {
    pc.DeletePassword? || pc.DeleteUserData? || pc.DropFinalizer?
  }

  predicate OtherPc(pc: Pc) {
    TeardownPc(pc) || pc.DeleteServer? || pc.CheckServer? || pc.GonePassword? || pc.GoneUserData? || pc.GoneNode?
    || pc.EnsureFinalizer? || SyncPc(pc) || pc.MarkFailed? || Ended(pc)
  }

  /** What holds during a run that creates and binds nothing: it has not changed its node before
      its first patch, and a teardown past its first call has no bound server any more. */
  ghost predicate OtherRun(w: World, pending: set<string>, name: string, n: Node, pc: Pc) {
    && Inv(State(w, pending)) && OtherPc(pc)
    && (!Ended(pc) && !pc.PatchAddresses? ==> name in w.nodes && w.nodes[name] == n)
    && (pc.DeleteServer? ==> BoundId(n) == Some(pc.id))
    && (TeardownPc(pc) && BoundId(n).Some? ==> BoundId(n).value !in w.servers)
  }

  /** A patch that leaves provider id and server-id label alone and keeps what is owned. */
  lemma PatchedOther(w: World, pending: set<string>, name: string, p: NodePatch)
    requires Inv(State(w, pending)) && PatchNode(w, name, p).Some? && p.providerId.None?
    requires LabelFollows(ApplyPatch(w.nodes[name], p)) && ANNOTATION_ADOPT !in p.annotations
    requires HasFinalizer(w.nodes[name]) && !HasFinalizer(ApplyPatch(w.nodes[name], p)) ==>
               BoundId(w.nodes[name]).Some? ==> BoundId(w.nodes[name]).value !in w.servers
    ensures Inv(State(PatchNode(w, name, p).value, pending))
  {
    var n, v := w.nodes[name], PatchNode(w, name, p).value;
    forall id | id in w.servers && w.servers[id].name == name && OwnedBy(w, name, id)
      ensures HasFinalizer(ApplyPatch(n, p))
    {
      ProviderIdRoundTrip(id);
      assert BoundId(n) == Some(id);
    }
    OneNodeChanged(w, v, name, pending, {});
  }

  lemma DeletedNodeOther(w: World, pending: set<string>, name: string)
    requires Inv(State(w, pending)) && name in w.nodes
    ensures Inv(State(DeleteNode(w, name).value, pending))
  {
    OneNodeChanged(w, DeleteNode(w, name).value, name, pending, {});
  }

  lemma FewerServers(w: World, pending: set<string>, id: int)
    requires Inv(State(w, pending))
    ensures Inv(State(DropServer(w, id), pending))
  {
    var v := DropServer(w, id);
    assert forall i, x :: Named(v, i, x) ==> Named(w, i, x);
    forall i | i in v.servers ensures OwnedBy(v, v.servers[i].name, i) || v.servers[i].name in pending {
      assert i in w.servers;
      assert OwnedBy(w, w.servers[i].name, i) ==> OwnedBy(v, v.servers[i].name, i);
    }
  }

  lemma PlainPatched(w: World, pending: set<string>, name: string, p: NodePatch)
    requires Inv(State(w, pending)) && p.providerId.None? && p.labels == map[] && ANNOTATION_ADOPT !in p.annotations
    requires p.finalizers.None? || FINALIZER in p.finalizers.value
             || (name in w.nodes && BoundId(w.nodes[name]).Some? ==> BoundId(w.nodes[name]).value !in w.servers)
    ensures PatchNode(w, name, p).Some? ==> Inv(State(PatchNode(w, name, p).value, pending))
  {
    if PatchNode(w, name, p).Some? {
      var n := w.nodes[name];
      assert MergeMap(n.labels, p.labels) == n.labels;
      PatchedOther(w, pending, name, p);
    }
  }

  lemma SyncPatched(w: World, pending: set<string>, name: string, s: Server)
    requires Inv(State(w, pending)) && name in w.nodes
    ensures var v := PatchNode(w, name, SyncPatch(w.nodes[name], s));
      v.Some? ==> Inv(State(v.value, pending))
  {
    var n := w.nodes[name];
    var p := SyncPatch(n, s);
    if PatchNode(w, name, p).Some? {
      assert LABEL_SERVER_ID !in DesiredLabels(s);
      assert LABEL_SERVER_ID in MergeMap(n.labels, p.labels) <==> LABEL_SERVER_ID in n.labels;
      PatchedOther(w, pending, name, p);
    }
  }

  lemma OtherStep(w: World, pending: set<string>, name: string, n: Node, pc: Pc, answered: bool)
    requires OtherRun(w, pending, name, n, pc) && !Ended(pc)
    ensures var (v, next) := StepAnswered(w, name, n, pc, answered); OtherRun(v, pending, name, n, next)
  {
    OtherNext(w, name, n, pc, answered);
    if answered {
      if TeardownPc(pc) || pc.DeleteServer? {
        TeardownStep(w, pending, name, n, pc);
      } else if SyncPc(pc) {
        SyncStep(w, pending, name, n, pc);
      } else {
        GoneStep(w, pending, name, n, pc);
      }
    }
  }

  /** Where such a run goes next, and that it leaves its node alone before its first patch. */
  lemma OtherNext(w: World, name: string, n: Node, pc: Pc, answered: bool)
    requires OtherPc(pc) && !Ended(pc)
    ensures var (v, next) := StepAnswered(w, name, n, pc, answered);
      && OtherPc(next) && !next.DeleteServer?
      && (!Ended(next) && !next.PatchAddresses? ==> v.nodes == w.nodes && !pc.PatchAddresses?)
      && (TeardownPc(next) ==>
           (pc.DeleteServer? && v.servers == w.servers - {pc.id}) || (TeardownPc(pc) && v.servers == w.servers))
  {
  }

  predicate SecretPc(pc: Pc) {
    pc.DeletePassword? || pc.DeleteUserData? || pc.GonePassword? || pc.GoneUserData?
  }

  lemma SecretDropped(w: World, pending: set<string>, name: string, n: Node, pc: Pc)
    requires Inv(State(w, pending)) && SecretPc(pc)
    ensures Inv(State(Step(w, name, n, pc).0, pending))
  {
    OneNodeChanged(w, Step(w, name, n, pc).0, name, pending, {});
  }

  lemma ServerDeleted(w: World, pending: set<string>, name: string, n: Node, id: int)
    requires Inv(State(w, pending))
    ensures Inv(State(Step(w, name, n, DeleteServer(id)).0, pending))
  {
    FewerServers(w, pending, id);
  }

  lemma FinalizerDropped(w: World, pending: set<string>, name: string, n: Node)
    requires OtherRun(w, pending, name, n, DropFinalizer)
    ensures Inv(State(Step(w, name, n, DropFinalizer).0, pending))
  {
    PlainPatched(w, pending, name, FinalizerPatch(WithoutFinalizer(n.finalizers)));
  }

  lemma TeardownStep(w: World, pending: set<string>, name: string, n: Node, pc: Pc)
    requires OtherRun(w, pending, name, n, pc) && (TeardownPc(pc) || pc.DeleteServer?)
    ensures Inv(State(Step(w, name, n, pc).0, pending))
  {
    if pc.DeleteServer? {
      ServerDeleted(w, pending, name, n, pc.id);
    } else if pc.DropFinalizer? {
      FinalizerDropped(w, pending, name, n);
    } else {
      SecretDropped(w, pending, name, n, pc);
    }
  }

  lemma SyncStep(w: World, pending: set<string>, name: string, n: Node, pc: Pc)
    requires OtherRun(w, pending, name, n, pc) && SyncPc(pc)
    ensures Inv(State(Step(w, name, n, pc).0, pending))
  {
    if pc.FetchServer? {
      FetchChangesNothing(w, name, n, pc);
    } else if pc.PatchLabels? {
      LabelsStep(w, pending, name, n, pc.server);
    } else {
      AddressesStep(w, pending, name, n, pc.server);
    }
  }

  lemma FetchChangesNothing(w: World, name: string, n: Node, pc: Pc)
    requires pc.FetchServer?
    ensures Step(w, name, n, pc).0 == w
  {
  }

  lemma LabelsStep(w: World, pending: set<string>, name: string, n: Node, s: Server)
    requires Inv(State(w, pending)) && name in w.nodes && w.nodes[name] == n
    ensures Inv(State(Step(w, name, n, PatchLabels(s)).0, pending))
  {
    SyncPatched(w, pending, name, s);
  }

  lemma AddressesStep(w: World, pending: set<string>, name: string, n: Node, s: Server)
    requires Inv(State(w, pending))
    ensures Inv(State(Step(w, name, n, PatchAddresses(s)).0, pending))
  {
    PlainPatched(w, pending, name, AddressPatch(s));
  }

  lemma GoneStep(w: World, pending: set<string>, name: string, n: Node, pc: Pc)
    requires OtherRun(w, pending, name, n, pc) && !Ended(pc) && !TeardownPc(pc) && !pc.DeleteServer? && !SyncPc(pc)
    ensures Inv(State(Step(w, name, n, pc).0, pending))
  {
    match pc
    case MarkFailed(hash) => PlainPatched(w, pending, name, FailedPatch(Some(hash)));
    case GonePassword => SecretDropped(w, pending, name, n, pc);
    case GoneUserData => SecretDropped(w, pending, name, n, pc);
    case GoneNode => DeletedNodeOther(w, pending, name);
    case EnsureFinalizer => PlainPatched(w, pending, name, FinalizerPatch(n.finalizers + [FINALIZER]));
    case CheckServer(_) =>
  }

  lemma {:induction false} OtherCalls(w: World, pending: set<string>, name: string, n: Node, pc: Pc, answers: Answers)
    requires OtherRun(w, pending, name, n, pc)
    ensures var (v, last) := Calls(w, name, n, pc, answers); Inv(State(v, pending))
    decreases answers
  {
    if !Ended(pc) && answers != [] {
      OtherStep(w, pending, name, n, pc, answers[0]);
      var (v, next) := StepAnswered(w, name, n, pc, answers[0]);
      OtherCalls(v, pending, name, n, next, answers[1..]);
    }
  }

  lemma {:induction false} OtherCallsCreateNothing(w: World, name: string, n: Node, pc: Pc, answers: Answers)
    requires OtherPc(pc)
    ensures Calls(w, name, n, pc, answers).0.nextServer == w.nextServer
    decreases answers
  {
    if !Ended(pc) && answers != [] {
      var (v, next) := StepAnswered(w, name, n, pc, answers[0]);
      assert OtherPc(next);
      ServerEffect(w, name, n, pc);
      OtherCallsCreateNothing(v, name, n, next, answers[1..]);
    }
  }

  // ---------- every event keeps the invariant ----------

  lemma ReconcileKeeps(s: State, kind: Kind, name: string, c: Catalog, answers: Answers)
    requires Inv(s) && name in s.w.nodes
    ensures Inv(After(s, Reconcile(kind, name, c, answers)))
  {
    var n := s.w.nodes[name];
    var pc := Begin(kind, n, c);
    if pc.GetNode? {
      assert Unbound(n);
      ProvisionCalls(s.w, s.pending, name, n, pc, answers, s.w.nextServer);
      ProvisionEnds(s, name, c, answers);
    } else {
      assert OtherPc(pc);
      OtherCalls(s.w, s.pending, name, n, pc, answers);
      OtherCallsCreateNothing(s.w, name, n, pc, answers);
    }
  }

  lemma ProvisionEnds(s: State, name: string, c: Catalog, answers: Answers)
    requires Inv(s) && name in s.w.nodes && BeginProvision(s.w.nodes[name], c) == GetNode
    requires var (v, last) := Outcome(s.w, Provision, name, c, answers);
      ProvisionRun(v, s.pending, name, last, s.w.nextServer)
    ensures Inv(After(s, Reconcile(Provision, name, c, answers)))
  {
    var (v, last) := Outcome(s.w, Provision, name, c, answers);
    var t := After(s, Reconcile(Provision, name, c, answers));
    forall id | id in v.servers ensures OwnedBy(v, v.servers[id].name, id) || v.servers[id].name in t.pending {
      if v.servers[id].name == name && (last.ClearFailed? || last.Done?) {
        assert Named(v, id, name);
      }
    }
  }

  lemma EventKeeps(s: State, e: Event)
    requires Inv(s) && Possible(s, e)
    ensures Inv(After(s, e))
  {
    match e
    case Reconcile(kind, name, c, answers) => ReconcileKeeps(s, kind, name, c, answers);
    case NodeMade(name, node) => OneNodeChanged(s.w, CreateNode(s.w, name, node).value, name, s.pending, {});
    case NodeDeleted(name) => DeletedNodeOther(s.w, s.pending, name);
    case NodeEdited(name, node) => OneNodeChanged(s.w, PutNode(s.w, name, node), name, s.pending, {});
    case ServerEdited(id, server) => ServerEditKeeps(s, id, server);
    case ServerLost(id) => FewerServers(s.w, s.pending, id);
  }

  lemma ServerEditKeeps(s: State, id: int, server: Server)
    requires Inv(s) && Possible(s, ServerEdited(id, server))
    ensures Inv(After(s, ServerEdited(id, server)))
  {
    var v := s.w.(servers := s.w.servers[id := server]);
    assert forall i, x :: Named(v, i, x) <==> Named(s.w, i, x);
    forall i | i in v.servers ensures OwnedBy(v, v.servers[i].name, i) || v.servers[i].name in s.pending {
      assert OwnedBy(s.w, s.w.servers[i].name, i) ==> OwnedBy(v, v.servers[i].name, i);
    }
  }

  lemma {:induction false} Always(s: State, events: seq<Event>)
    requires Inv(s) && Legal(s, events)
    ensures Inv(Exec(s, events))
    decreases events
  {
    if events != [] {
      EventKeeps(s, events[0]);
      Always(After(s, events[0]), events[1..]);
    }
  }

  lemma InitialInv(s: State)
    requires Initial(s)
    ensures Inv(s)
  {
    assert forall id, name :: !Named(s.w, id, name);
  }

  /** Server ownership: in every reachable state each server is named by the provider id of the node
      of its name, which holds our finalizer, or a provision run for that name stopped between
      creating and binding it and none has completed since. */
  lemma ServersAreOwned(s: State, events: seq<Event>, id: int)
    requires Initial(s) && Legal(s, events) && id in Exec(s, events).w.servers
    ensures var t := Exec(s, events);
      OwnedBy(t.w, t.w.servers[id].name, id) || t.w.servers[id].name in t.pending
  {
    InitialInv(s);
    Always(s, events);
  }

  // ---------- the next completed run binds it ----------

  /** How many calls a run can still make. */
  function Rank(pc: Pc): nat {
    match pc
    case MarkFailed(_) => 1
    case GetNode => 9
    case PushFinalizer(_) => 8
    case ReadPassword => 7
    case WritePassword => 6
    case ReadUserData => 5
    case Lookup => 4
    case CreateServer => 3
    case BindServer(_, _) => 2
    case ClearFailed => 1
    case DeleteServer(_) => 4
    case DeletePassword => 3
    case DeleteUserData => 2
    case DropFinalizer => 1
    case CheckServer(_) => 4
    case GonePassword => 3
    case GoneUserData => 2
    case GoneNode => 1
    case EnsureFinalizer => 1
    case AdoptLookup => 2
    case AdoptBind(_) => 1
    case FetchServer(_) => 3
    case PatchLabels(_) => 2
    case PatchAddresses(_) => 1
    case Done => 0
    case Failed => 0
  }

  lemma ProvisionRankDrops(w: World, name: string, n: Node, pc: Pc)
    requires BeforeBind(pc) || pc.ClearFailed? || pc.MarkFailed?
    ensures Rank(Step(w, name, n, pc).1) < Rank(pc)
  {
  }

  predicate RemovalPc(pc: Pc) {
    pc.DeleteServer? || TeardownPc(pc) || pc.CheckServer? || pc.GonePassword? || pc.GoneUserData? || pc.GoneNode?
  }

  lemma RemovalRankDrops(w: World, name: string, n: Node, pc: Pc)
    requires RemovalPc(pc)
    ensures Rank(Step(w, name, n, pc).1) < Rank(pc)
  {
  }

  lemma FetchRankDrops(w: World, name: string, n: Node, id: int)
    ensures Rank(Step(w, name, n, FetchServer(id)).1) < Rank(FetchServer(id))
  {
  }

  lemma OtherRankDrops(w: World, name: string, n: Node, pc: Pc)
    requires pc.EnsureFinalizer? || pc.AdoptLookup? || pc.AdoptBind? || pc.PatchLabels? || pc.PatchAddresses?
    ensures Rank(Step(w, name, n, pc).1) < Rank(pc)
  {
  }

  lemma RankDrops(w: World, name: string, n: Node, pc: Pc, answered: bool)
    requires !Ended(pc)
    ensures Rank(StepAnswered(w, name, n, pc, answered).1) < Rank(pc)
  {
    if answered {
      if BeforeBind(pc) || pc.ClearFailed? || pc.MarkFailed? {
        ProvisionRankDrops(w, name, n, pc);
      } else if RemovalPc(pc) {
        RemovalRankDrops(w, name, n, pc);
      } else if pc.FetchServer? {
        FetchRankDrops(w, name, n, pc.id);
      } else {
        OtherRankDrops(w, name, n, pc);
      }
    } else {
      assert Rank(Fault(pc)) < Rank(pc);
    }
  }

  /** Every run of every controller ends within nine calls, however they are answered. */
  lemma {:induction false} RunsEnd(w: World, name: string, n: Node, pc: Pc, answers: Answers)
    requires |answers| >= Rank(pc)
    ensures Rank(pc) <= 9 && Ended(Calls(w, name, n, pc, answers).1)
    decreases answers
  {
    if !Ended(pc) {
      var (v, next) := StepAnswered(w, name, n, pc, answers[0]);
      RankDrops(w, name, n, pc, answers[0]);
      RunsEnd(v, name, n, next, answers[1..]);
    }
  }

  /** A provision run that meets a server of its name creates none, and completes only by binding
      the node to that server. */
  ghost predicate Rebinding(w: World, pending: set<string>, name: string, pc: Pc, first: int, id: int,
      servers: map<int, Server>) {
    && ProvisionRun(w, pending, name, pc, first)
    && w.servers == servers && Named(w, id, name) && w.nextServer == first && !pc.CreateServer?
    && (pc.BindServer? ==> pc.id == id)
    && (pc.ClearFailed? || pc.Done? ==>
          w.nodes[name].labels[LABEL_SERVER_ID] == PrintInt(id))
  }

  lemma RebindStep(w: World, pending: set<string>, name: string, n: Node, pc: Pc, answered: bool,
                   first: int, id: int, servers: map<int, Server>)
    requires Rebinding(w, pending, name, pc, first, id, servers) && !Ended(pc)
    ensures var (v, next) := StepAnswered(w, name, n, pc, answered);
      Rebinding(v, pending, name, next, first, id, servers)
  {
    ProvisionStep(w, pending, name, n, pc, answered, first);
    var (v, next) := StepAnswered(w, name, n, pc, answered);
    if answered {
      ServerEffect(w, name, n, pc);
      assert Named(v, id, name);
      if pc.Lookup? {
        assert FindServer(w, name).Some?;
        assert Named(w, FindServer(w, name).value, name);
      } else if pc.BindServer? {
        BindProvision(w, pending, name, pc, first);
      }
    }
  }

  lemma {:induction false} RebindCalls(w: World, pending: set<string>, name: string, n: Node, pc: Pc, answers: Answers,
                                       first: int, id: int, servers: map<int, Server>)
    requires Rebinding(w, pending, name, pc, first, id, servers)
    ensures var (v, last) := Calls(w, name, n, pc, answers);
      Rebinding(v, pending, name, last, first, id, servers)
    decreases answers
  {
    if !Ended(pc) && answers != [] {
      RebindStep(w, pending, name, n, pc, answers[0], first, id, servers);
      var (v, next) := StepAnswered(w, name, n, pc, answers[0]);
      RebindCalls(v, pending, name, n, next, answers[1..], first, id, servers);
    }
  }

  /** If an unowned server's node is live, the next validated provision run to complete binds that
      same server, creates none, and the name is no longer pending. */
  lemma NextCompletedRunBinds(s: State, events: seq<Event>, id: int, c: Catalog, answers: Answers)
    requires Initial(s) && Legal(s, events) && id in Exec(s, events).w.servers
    requires var t := Exec(s, events); var name := t.w.servers[id].name;
      && name in t.w.nodes && !OwnedBy(t.w, name, id)
      && BeginProvision(t.w.nodes[name], c) == GetNode
      && Completed(Provision, t.w.nodes[name], c, Outcome(t.w, Provision, name, c, answers).1)
    ensures var t := Exec(s, events); var name := t.w.servers[id].name;
      var u := After(t, Reconcile(Provision, name, c, answers));
      && OwnedBy(u.w, name, id)
      && LABEL_SERVER_ID in u.w.nodes[name].labels && u.w.nodes[name].labels[LABEL_SERVER_ID] == PrintInt(id)
      && u.w.servers == t.w.servers && name !in u.pending
  {
    InitialInv(s);
    Always(s, events);
    var t := Exec(s, events);
    var name := t.w.servers[id].name;
    var n := t.w.nodes[name];
    assert Unbound(n) && Named(t.w, id, name);
    RebindCalls(t.w, t.pending, name, n, GetNode, answers, t.w.nextServer, id, t.w.servers);
    assert Named(Outcome(t.w, Provision, name, c, answers).0, id, name);
  }

  /** Such a run completes whenever all its calls are answered, and leaves no mark of an earlier
      failure on the node. */
  lemma AnsweredRunCompletes(s: State, name: string, c: Catalog, answers: Answers)
    requires Inv(s) && name in s.w.nodes && BeginProvision(s.w.nodes[name], c) == GetNode
    requires |answers| >= 9 && (forall i :: 0 <= i < |answers| ==> answers[i]) && s.w.nextServer <= I64_MAX
    ensures var (v, last) := Outcome(s.w, Provision, name, c, answers);
      last.Done? && name in v.nodes && ANNOTATION_PROVISION_FAILED !in v.nodes[name].annotations
  {
    var n := s.w.nodes[name];
    RunsEnd(s.w, name, n, GetNode, answers);
    NeverFails(s.w, s.pending, name, n, GetNode, answers, s.w.nextServer);
  }

  predicate NoFailureMark(v: World, name: string) {
    name in v.nodes && ANNOTATION_PROVISION_FAILED !in v.nodes[name].annotations
  }

  lemma ClearFailedClears(w: World, name: string)
    requires name in w.nodes && !w.nodes[name].deleting
    ensures NoFailureMark(TryPatch(w, name, FailedPatch(None), Done).0, name)
  {
  }

  lemma {:induction false} NeverFails(w: World, pending: set<string>, name: string, n: Node, pc: Pc, answers: Answers,
      first: int)
    requires ProvisionRun(w, pending, name, pc, first) && !pc.Failed?
    requires (forall i :: 0 <= i < |answers| ==> answers[i])
    requires pc.BindServer? || pc.ClearFailed? || pc.Done? || w.nextServer <= I64_MAX
    ensures var (v, last) := Calls(w, name, n, pc, answers);
      !last.Failed? && (last.Done? && !pc.Done? ==> NoFailureMark(v, name))
    decreases answers
  {
    if !Ended(pc) && answers != [] {
      assert answers[0];
      ProvisionStep(w, pending, name, n, pc, true, first);
      ServerEffect(w, name, n, pc);
      var (v, next) := Step(w, name, n, pc);
      if pc.BindServer? {
        BindProvision(w, pending, name, pc, first);
      } else if pc.PushFinalizer? {
        PatchedProvision(w, pending, name, pc, first, FinalizerPatch(pc.finalizers), ReadPassword);
      } else if pc.ClearFailed? {
        ClearFailedClears(w, name);
      }
      assert !next.Failed?;
      NeverFails(v, pending, name, n, next, answers[1..], first);
    }
  }
}
