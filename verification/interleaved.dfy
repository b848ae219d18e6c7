/** All controllers at once. Regime: interleaved. Any number of runs are under way, their calls
    alternate in any order with each other and with everyone else's edits, any call may fail,
    any run may crash before its next call, and a run may have started from any past version of
    its node. Others also make servers for adoption. Trusted: one provision run per node name at a
    time, exact and linearizable lookup by hostname, ids never reused, a provider id is write-once
    at the API server.
 */
module Interleaved {
  import opened Wrappers
  import opened Text
  import opened Cluster
  import opened Lifecycle

  datatype Run = Run(kind: Kind, name: string, node: Node, pc: Pc)

  /** A node as it was at some time, the most a reader can have seen. */
  datatype Version = Version(name: string, node: Node)

  datatype System = System(w: World, seen: set<Version>, runs: map<int, Run>)

  datatype Action =
    | Start(id: int, kind: Kind, version: Version, catalog: Catalog)
    | Call(id: int, answered: bool)
    | Crash(id: int)
    | NewNode(name: string, node: Node)
    | RequestDelete(name: string)
    | EditNode(name: string, node: Node)
    | MakeServer(server: Server)
    | EditServer(id: int, server: Server)
    | LoseServer(id: int)

  function Current(w: World): set<Version> {
    set name | name in w.nodes :: Version(name, w.nodes[name])
  }

  function Moved(s: System, w: World, runs: map<int, Run>): System {
    System(w, s.seen + Current(w), runs)
  }

  // ---------- binding of a node ----------

  /** The server-id label and the provider id are set together and name the same i64 id; a node
      that is not bound carries the uninitialized taint. */
  ghost predicate Binding(n: Node) {
    match n.providerId
    case None => LABEL_SERVER_ID !in n.labels && Uninitialized(n)
    case Some(pid) =>
      && ParseProviderId(pid).Some?
      && LABEL_SERVER_ID in n.labels
      && n.labels[LABEL_SERVER_ID] == PrintInt(ParseProviderId(pid).value)
  }

  /** Edits by others: they leave the object's identity, its deletion, its provider id and its
      server-id label alone, and do not untaint a node that is not bound. */
  ghost predicate OthersMay(n: Node, m: Node) {
    && m.uid == n.uid && m.deleting == n.deleting && m.providerId == n.providerId
    && (LABEL_SERVER_ID in m.labels <==> LABEL_SERVER_ID in n.labels)
    && (LABEL_SERVER_ID in n.labels ==> m.labels[LABEL_SERVER_ID] == n.labels[LABEL_SERVER_ID])
    && (n.providerId.None? && Uninitialized(n) ==> Uninitialized(m))
  }

  ghost predicate Provisioning(r: Run, name: string) {
    r.kind == Provision && r.name == name
  }

  /** What can happen at all. Others make servers too, for adoption, under names that no server has and
      that no run is about to use. */
  ghost predicate Possible(s: System, a: Action) {
    match a
    case Start(id, kind, version, _) =>
      && id !in s.runs && version in s.seen
      && (kind == Provision ==> forall i :: i in s.runs ==> !Provisioning(s.runs[i], version.name))
    case Call(id, _) => id in s.runs
    case Crash(id) => id in s.runs
    case NewNode(name, node) => name !in s.w.nodes && Binding(node)
    case RequestDelete(name) => name in s.w.nodes
    case EditNode(name, node) => name in s.w.nodes && OthersMay(s.w.nodes[name], node)
    case MakeServer(server) =>
      && s.w.nextServer <= I64_MAX
      && (forall id :: !Named(s.w, id, server.name))
      && (forall i :: i in s.runs && s.runs[i].pc.CreateServer? ==> s.runs[i].name != server.name)
    case EditServer(id, server) => id in s.w.servers && server.name == s.w.servers[id].name
    case LoseServer(id) => id in s.w.servers
  }

  /** What the binding invariants need besides: a sync run about to patch meets a node that names the server
      the node it read named. `StaleSyncExact` shows that no less will do. */
  ghost predicate Enabled(s: System, a: Action) {
    Possible(s, a) && (a.Call? && a.answered ==> MeetsItsServer(s.w, s.runs[a.id]))
  }

  ghost predicate MeetsItsServer(w: World, r: Run) {
    r.pc.PatchLabels? && r.name in w.nodes ==> SameServer(r.node, w.nodes[r.name])
  }

  predicate SameServer(read: Node, n: Node) {
    && read.providerId.Some? && n.providerId.Some?
    && ParseProviderId(n.providerId.value) == ParseProviderId(read.providerId.value)
  }

  ghost function Apply(s: System, a: Action): System
    requires Possible(s, a)
  {
    match a
    case Start(id, kind, version, catalog) =>
      Moved(s, s.w, s.runs[id := Run(kind, version.name, version.node, Begin(kind, version.node, catalog))])
    case Call(id, answered) =>
      var r := s.runs[id];
      var (w, pc) := StepAnswered(s.w, r.name, r.node, r.pc, answered);
      Moved(s, w, s.runs[id := r.(pc := pc)])
    case Crash(id) => Moved(s, s.w, s.runs - {id})
    case NewNode(name, node) => Moved(s, CreateNode(s.w, name, node).value, s.runs)
    case RequestDelete(name) => Moved(s, DeleteNode(s.w, name).value, s.runs)
    case EditNode(name, node) => Moved(s, PutNode(s.w, name, node), s.runs)
    case MakeServer(server) => Moved(s, AddServer(s.w, server).value.0, s.runs)
    case EditServer(id, server) => Moved(s, s.w.(servers := s.w.servers[id := server]), s.runs)
    case LoseServer(id) => Moved(s, DropServer(s.w, id), s.runs)
  }

  ghost predicate Runs(s: System, actions: seq<Action>)
    decreases actions
  {
    actions == [] || (Possible(s, actions[0]) && Runs(Apply(s, actions[0]), actions[1..]))
  }

  /** As `Runs`, and sync runs meet their servers. */
  ghost predicate Legal(s: System, actions: seq<Action>)
    decreases actions
  {
    actions == [] || (Enabled(s, actions[0]) && Legal(Apply(s, actions[0]), actions[1..]))
  }

  /** The state after the actions, up to the first impossible one. */
  ghost function Exec(s: System, actions: seq<Action>): System
    decreases actions
  {
    if actions == [] || !Possible(s, actions[0]) then s else Exec(Apply(s, actions[0]), actions[1..])
  }

  /** No runs yet; servers, if any, under different names; nodes, if any, bound or as scale-up leaves them. */
  ghost predicate Initial(s: System) {
    && ServersOk(s.w)
    && s.runs == map[]
    && s.seen == Current(s.w)
    && (forall name :: name in s.w.nodes ==> Binding(s.w.nodes[name]) && s.w.nodes[name].uid < s.w.nextUid)
    && (forall a, b :: a in s.w.nodes && b in s.w.nodes && s.w.nodes[a].uid == s.w.nodes[b].uid ==> a == b)
  }

  // ---------- servers ----------

  predicate ProvisionPc(pc: Pc) {
    pc.Lookup? || pc.CreateServer? || pc.BindServer? || pc.GetNode? || pc.PushFinalizer? || pc.ReadPassword?
    || pc.WritePassword? || pc.ReadUserData? || pc.ClearFailed? || pc.MarkFailed?
  }

  /** What a run knows about servers: none has its node's name when it is about to create one;
      the one it is about to bind, if it still exists, has that name. */
  ghost predicate RunKnows(w: World, name: string, pc: Pc) {
    && (pc.CreateServer? ==> forall id :: !Named(w, id, name))
    && (pc.BindServer? || pc.AdoptBind? ==>
          0 <= pc.id < w.nextServer && (pc.id in w.servers ==> w.servers[pc.id].name == name))
  }

  ghost predicate ServersOk(w: World) {
    && 0 <= w.nextServer <= I64_MAX + 1
    && (forall id :: id in w.servers ==> 0 <= id < w.nextServer)
    && (forall a, b, name :: Named(w, a, name) && Named(w, b, name) ==> a == b)
  }

  ghost predicate ServerInv(s: System) {
    && ServersOk(s.w)
    && (forall i :: i in s.runs ==> RunKnows(s.w, s.runs[i].name, s.runs[i].pc))
    && (forall i :: i in s.runs && ProvisionPc(s.runs[i].pc) ==> s.runs[i].kind == Provision)
    && OneRunPerName(s.runs)
  }

  ghost predicate OneRunPerName(runs: map<int, Run>) {
    forall i, j, name :: i in runs && j in runs && Provisioning(runs[i], name) && Provisioning(runs[j], name) ==> i == j
  }

  /** What one call can do to the servers. */
  lemma ServerEffect(w: World, name: string, n: Node, pc: Pc)
    ensures var (v, next) := Step(w, name, n, pc);
      || (v.servers == w.servers && v.nextServer == w.nextServer)
      || (pc.DeleteServer? && v.servers == w.servers - {pc.id} && v.nextServer == w.nextServer)
      || (pc.CreateServer? && w.nextServer <= I64_MAX && next == BindServer(w.nextServer, true)
          && v.servers == w.servers[w.nextServer := NewServer(name, n)] && v.nextServer == w.nextServer + 1)
  {
  }

  lemma StepKnows(w: World, name: string, n: Node, pc: Pc)
    requires ServersOk(w) && RunKnows(w, name, pc)
    ensures var (v, next) := Step(w, name, n, pc);
      ServersOk(v) && RunKnows(v, name, next) && (ProvisionPc(next) ==> ProvisionPc(pc))
  {
    ServerEffect(w, name, n, pc);
    EffectKeepsServers(w, name, n, pc, Step(w, name, n, pc).0);
    NextKnows(w, name, n, pc);
  }

  lemma EffectKeepsServers(w: World, name: string, n: Node, pc: Pc, v: World)
    requires ServersOk(w) && RunKnows(w, name, pc)
    requires
      || (v.servers == w.servers && v.nextServer == w.nextServer)
      || (pc.DeleteServer? && v.servers == w.servers - {pc.id} && v.nextServer == w.nextServer)
      || (pc.CreateServer? && w.nextServer <= I64_MAX
          && v.servers == w.servers[w.nextServer := NewServer(name, n)] && v.nextServer == w.nextServer + 1)
    ensures ServersOk(v)
  {
    forall a, x | Named(v, a, x) ensures Named(w, a, x) || (pc.CreateServer? && a == w.nextServer && x == name) {}
  }

  lemma NextKnows(w: World, name: string, n: Node, pc: Pc)
    requires ServersOk(w) && RunKnows(w, name, pc)
    ensures var (v, next) := Step(w, name, n, pc);
      RunKnows(v, name, next) && (ProvisionPc(next) ==> ProvisionPc(pc))
  {
    var (v, next) := Step(w, name, n, pc);
    if pc.CreateServer? || pc.Lookup? || pc.AdoptLookup? {
      assert next.BindServer? || next.AdoptBind? || next.CreateServer? || Ended(next);
    } else {
      assert !next.BindServer? && !next.AdoptBind? && !next.CreateServer?;
    }
  }

  /** A call of one run does not spoil what another knows. */
  lemma OthersKnow(w: World, name: string, n: Node, pc: Pc, other: string, otherPc: Pc)
    requires ServersOk(w) && RunKnows(w, name, pc) && RunKnows(w, other, otherPc)
    requires pc.CreateServer? && otherPc.CreateServer? ==> name != other
    ensures RunKnows(Step(w, name, n, pc).0, other, otherPc)
  {
    var v := Step(w, name, n, pc).0;
    ServerEffect(w, name, n, pc);
    forall id | Named(v, id, other) ensures Named(w, id, other) || (pc.CreateServer? && name == other) {}
  }

  lemma FaultKnows(w: World, name: string, pc: Pc)
    ensures RunKnows(w, name, Fault(pc)) && (ProvisionPc(Fault(pc)) ==> ProvisionPc(pc))
  {
  }

  lemma CallKeepsServers(s: System, id: int, answered: bool)
    requires ServerInv(s) && Possible(s, Call(id, answered))
    ensures ServerInv(Apply(s, Call(id, answered)))
  {
    var r := s.runs[id];
    var t := Apply(s, Call(id, answered));
    if answered {
      StepKnows(s.w, r.name, r.node, r.pc);
      forall i | i in t.runs ensures RunKnows(t.w, t.runs[i].name, t.runs[i].pc) {
        if i != id {
          var o := s.runs[i];
          if r.pc.CreateServer? && o.pc.CreateServer? {
            assert Provisioning(r, r.name) && Provisioning(o, o.name);
          }
          OthersKnow(s.w, r.name, r.node, r.pc, o.name, o.pc);
        }
      }
    } else {
      FaultKnows(s.w, r.name, r.pc);
    }
    assert forall i, name :: i in t.runs && Provisioning(t.runs[i], name) ==> Provisioning(s.runs[i], name);
  }

  lemma ActionKeepsServers(s: System, a: Action)
    requires ServerInv(s) && Possible(s, a)
    ensures ServerInv(Apply(s, a))
  {
    if a.Call? {
      CallKeepsServers(s, a.id, a.answered);
    } else {
      OtherActionKeepsServers(s, a);
      OtherActionKeepsRuns(s, a);
    }
  }

  lemma OtherActionKeepsServers(s: System, a: Action)
    requires ServerInv(s) && Possible(s, a) && !a.Call?
    ensures var t := Apply(s, a);
      && ServersOk(t.w)
      && forall i :: i in s.runs ==> RunKnows(t.w, s.runs[i].name, s.runs[i].pc)
  {
    var t := Apply(s, a);
    if a.MakeServer? {
      MadeServerKeeps(s, a.server);
    } else {
      forall id, name | Named(t.w, id, name) ensures Named(s.w, id, name) {}
    }
  }

  lemma MadeServerKeeps(s: System, server: Server)
    requires ServerInv(s) && Possible(s, MakeServer(server))
    ensures var t := Apply(s, MakeServer(server));
      && ServersOk(t.w)
      && forall i :: i in s.runs ==> RunKnows(t.w, s.runs[i].name, s.runs[i].pc)
  {
    var t := Apply(s, MakeServer(server));
    forall id, name | Named(t.w, id, name)
      ensures Named(s.w, id, name) || (id == s.w.nextServer && name == server.name) {}
  }

  lemma OtherActionKeepsRuns(s: System, a: Action)
    requires ServerInv(s) && Possible(s, a) && !a.Call?
    ensures var t := Apply(s, a);
      && (forall i :: i in t.runs && i !in s.runs ==> RunKnows(t.w, t.runs[i].name, t.runs[i].pc))
      && (forall i :: i in t.runs && ProvisionPc(t.runs[i].pc) ==> t.runs[i].kind == Provision)
      && OneRunPerName(t.runs)
  {
    var t := Apply(s, a);
    if a.Start? {
      assert forall i, name :: i in s.runs && Provisioning(t.runs[i], name) ==> Provisioning(s.runs[i], name);
      assert forall name :: Provisioning(t.runs[a.id], name) ==> name == a.version.name;
    } else {
      assert forall i :: i in t.runs ==> i in s.runs && t.runs[i] == s.runs[i];
    }
  }

  lemma {:induction false} ServersAlways(s: System, actions: seq<Action>)
    requires ServerInv(s) && Runs(s, actions)
    ensures ServerInv(Exec(s, actions))
    decreases actions
  {
    if actions != [] {
      ActionKeepsServers(s, actions[0]);
      ServersAlways(Apply(s, actions[0]), actions[1..]);
    }
  }

  /** No duplicate servers: over every run of the system there is never more than one server with
      a given hostname, starting from none or from servers with different ones. */
  lemma NoDuplicateServers(s: System, actions: seq<Action>, a: int, b: int)
    requires Initial(s) && Runs(s, actions)
    requires a in Exec(s, actions).w.servers && b in Exec(s, actions).w.servers
    requires Exec(s, actions).w.servers[a].name == Exec(s, actions).w.servers[b].name
    ensures a == b
  {
    ServersAlways(s, actions);
    var w := Exec(s, actions).w;
    assert Named(w, a, w.servers[a].name) && Named(w, b, w.servers[a].name);
  }

  /** Runs racing to bind one node, by adoption or provisioning, write the same id while the
      servers they found exist. */
  lemma RacersAgree(s: System, actions: seq<Action>, i: int, j: int)
    requires Initial(s) && Runs(s, actions)
    requires var t := Exec(s, actions);
      && i in t.runs && j in t.runs && t.runs[i].name == t.runs[j].name
      && (t.runs[i].pc.BindServer? || t.runs[i].pc.AdoptBind?)
      && (t.runs[j].pc.BindServer? || t.runs[j].pc.AdoptBind?)
      && t.runs[i].pc.id in t.w.servers && t.runs[j].pc.id in t.w.servers
    ensures Exec(s, actions).runs[i].pc.id == Exec(s, actions).runs[j].pc.id
  {
    ServersAlways(s, actions);
    var t := Exec(s, actions);
    assert RunKnows(t.w, t.runs[i].name, t.runs[i].pc) && RunKnows(t.w, t.runs[j].name, t.runs[j].pc);
    assert Named(t.w, t.runs[i].pc.id, t.runs[i].name) && Named(t.w, t.runs[j].pc.id, t.runs[i].name);
  }

  // ---------- bindings ----------

  predicate SyncPc(pc: Pc) {
    pc.FetchServer? || pc.PatchLabels? || pc.PatchAddresses?
  }

  /** Nodes keep their binding, versions of one object agree on its provider id once it is set,
      and what runs have read was really there. */
  ghost predicate NodeInv(s: System) {
    && Current(s.w) <= s.seen
    && (forall v :: v in s.seen ==> Binding(v.node) && v.node.uid < s.w.nextUid)
    && (forall v, name :: v in s.seen && name in s.w.nodes && v.node.uid == s.w.nodes[name].uid ==>
          v.name == name && (v.node.providerId.Some? ==> s.w.nodes[name].providerId == v.node.providerId))
    && (forall i :: i in s.runs ==> Version(s.runs[i].name, s.runs[i].node) in s.seen)
    && (forall i :: i in s.runs && SyncPc(s.runs[i].pc) ==> s.runs[i].node.providerId.Some?)
  }

  /** How one call may change the nodes: only its own, and only in these ways. */
  ghost predicate NodeStep(w: World, v: World, name: string) {
    && v.nextUid == w.nextUid
    && (forall x :: x in v.nodes ==> x in w.nodes)
    && (forall x :: x in v.nodes && x != name ==> v.nodes[x] == w.nodes[x])
    && (name in v.nodes ==> Grows(w.nodes[name], v.nodes[name]))
  }

  /** The same object, its provider id unchanged if it was set, and its binding kept. */
  ghost predicate Grows(n: Node, m: Node) {
    && m.uid == n.uid
    && (n.providerId.Some? ==> m.providerId == n.providerId)
    && (Binding(n) ==> Binding(m))
  }

  lemma BindPatchBinds(n: Node, id: int)
    requires IsI64(id) && PatchAllowed(n, BindPatch(id))
    ensures Grows(n, ApplyPatch(n, BindPatch(id)))
  {
    ProviderIdRoundTrip(id);
  }

  lemma SyncPatchKeepsBinding(n: Node, read: Node, s: Server)
    requires Binding(read) && SameServer(read, n)
    ensures Grows(n, ApplyPatch(n, SyncPatch(read, s)))
  {
    assert LABEL_SERVER_ID !in DesiredLabels(s);
  }

  lemma PatchStep(w: World, name: string, p: NodePatch)
    requires name in w.nodes && PatchAllowed(w.nodes[name], p) ==> Grows(w.nodes[name], ApplyPatch(w.nodes[name], p))
    ensures PatchNode(w, name, p).Some? ==> NodeStep(w, PatchNode(w, name, p).value, name)
  {
  }

  lemma OtherPatchKeepsBinding(n: Node, p: NodePatch)
    requires p.labels == map[] && p.providerId.None? && p.taints.None?
    ensures Grows(n, ApplyPatch(n, p))
  {
    assert MergeMap(n.labels, p.labels) == n.labels;
  }

  lemma StepOnNodes(w: World, name: string, n: Node, pc: Pc)
    requires ServersOk(w) && RunKnows(w, name, pc)
    requires Binding(n) && (SyncPc(pc) ==> n.providerId.Some?)
    requires pc.PatchLabels? && name in w.nodes ==> SameServer(n, w.nodes[name])
    ensures NodeStep(w, Step(w, name, n, pc).0, name)
  {
    match pc
    case BindServer(id, _) => BindStep(w, name, id);
    case AdoptBind(id) => BindStep(w, name, id);
    case PatchLabels(s) =>
      if name in w.nodes { SyncPatchKeepsBinding(w.nodes[name], n, s); }
      PatchStep(w, name, SyncPatch(n, s));
    case _ => PlainStepOnNodes(w, name, n, pc);
  }

  lemma PlainStepOnNodes(w: World, name: string, n: Node, pc: Pc)
    requires !pc.BindServer? && !pc.AdoptBind? && !pc.PatchLabels?
    ensures NodeStep(w, Step(w, name, n, pc).0, name)
  {
    match pc
    case MarkFailed(hash) => PlainPatch(w, name, FailedPatch(Some(hash)));
    case PushFinalizer(fs) => PlainPatch(w, name, FinalizerPatch(fs));
    case ClearFailed => PlainPatch(w, name, FailedPatch(None));
    case DropFinalizer => PlainPatch(w, name, FinalizerPatch(WithoutFinalizer(n.finalizers)));
    case EnsureFinalizer => PlainPatch(w, name, FinalizerPatch(n.finalizers + [FINALIZER]));
    case PatchAddresses(s) => PlainPatch(w, name, AddressPatch(s));
    case _ =>
  }

  lemma StaysSync(w: World, name: string, n: Node, pc: Pc, answered: bool)
    ensures SyncPc(StepAnswered(w, name, n, pc, answered).1) ==> SyncPc(pc)
  {
  }

  lemma PlainPatch(w: World, name: string, p: NodePatch)
    requires p.labels == map[] && p.providerId.None? && p.taints.None?
    ensures PatchNode(w, name, p).Some? ==> NodeStep(w, PatchNode(w, name, p).value, name)
  {
    if name in w.nodes { OtherPatchKeepsBinding(w.nodes[name], p); }
    PatchStep(w, name, p);
  }

  lemma BindStep(w: World, name: string, id: int)
    requires ServersOk(w) && 0 <= id < w.nextServer
    ensures PatchNode(w, name, BindPatch(id)).Some? ==> NodeStep(w, PatchNode(w, name, BindPatch(id)).value, name)
  {
    if name in w.nodes && PatchAllowed(w.nodes[name], BindPatch(id)) { BindPatchBinds(w.nodes[name], id); }
    PatchStep(w, name, BindPatch(id));
  }

  lemma BeginSyncIsBound(kind: Kind, n: Node, c: Catalog)
    requires Binding(n)
    ensures SyncPc(Begin(kind, n, c)) ==> n.providerId.Some?
  {
    if n.providerId.None? {
      assert !StartsWith("", PROVIDER_PREFIX);
    }
  }

  /** Any node step keeps the invariant over nodes. */
  lemma NodesGrow(s: System, w: World, name: string, runs: map<int, Run>)
    requires NodeInv(s) && NodeStep(s.w, w, name)
    requires forall i :: i in runs ==> i in s.runs && runs[i].name == s.runs[i].name && runs[i].node == s.runs[i].node
    requires forall i :: i in runs && SyncPc(runs[i].pc) ==> runs[i].node.providerId.Some?
    ensures NodeInv(Moved(s, w, runs))
  {
    var t := Moved(s, w, runs);
    forall v | v in t.seen ensures Binding(v.node) && v.node.uid < w.nextUid {
      if v !in s.seen {
        assert Version(v.name, s.w.nodes[v.name]) in Current(s.w);
      }
    }
    forall v, x | v in t.seen && x in w.nodes && v.node.uid == w.nodes[x].uid
      ensures v.name == x && (v.node.providerId.Some? ==> w.nodes[x].providerId == v.node.providerId)
    {
      assert Version(x, s.w.nodes[x]) in Current(s.w);
      if v !in s.seen {
        var before := Version(v.name, s.w.nodes[v.name]);
        assert before in Current(s.w) && before.node.uid == v.node.uid;
      }
    }
  }

  lemma CallKeepsNodes(s: System, id: int, answered: bool)
    requires ServerInv(s) && NodeInv(s) && Enabled(s, Call(id, answered))
    ensures NodeInv(Apply(s, Call(id, answered)))
  {
    var r := s.runs[id];
    var (w, pc) := StepAnswered(s.w, r.name, r.node, r.pc, answered);
    RunStepOnNodes(s, r, answered);
    NodesGrow(s, w, r.name, s.runs[id := r.(pc := pc)]);
  }

  lemma RunStepOnNodes(s: System, r: Run, answered: bool)
    requires ServersOk(s.w) && RunKnows(s.w, r.name, r.pc) && NodeInv(s) && (answered ==> MeetsItsServer(s.w, r))
    requires Version(r.name, r.node) in s.seen && (SyncPc(r.pc) ==> r.node.providerId.Some?)
    ensures var (w, pc) := StepAnswered(s.w, r.name, r.node, r.pc, answered);
      NodeStep(s.w, w, r.name) && (SyncPc(pc) ==> SyncPc(r.pc))
  {
    var read := Version(r.name, r.node);
    assert Binding(read.node);
    StaysSync(s.w, r.name, r.node, r.pc, answered);
    if answered {
      StepOnNodes(s.w, r.name, r.node, r.pc);
    } else {
      SameNodes(s.w, r.name);
    }
  }

  lemma SameNodes(w: World, name: string)
    ensures NodeStep(w, w, name)
  {
  }

  lemma ActionKeepsNodes(s: System, a: Action)
    requires ServerInv(s) && NodeInv(s) && Enabled(s, a)
    ensures NodeInv(Apply(s, a))
  {
    match a
    case Start(id, kind, version, catalog) => StartKeepsNodes(s, a);
    case Call(id, answered) => CallKeepsNodes(s, id, answered);
    case Crash(id) => NodesGrow(s, s.w, "", s.runs - {id});
    case NewNode(name, node) => NewNodeKeeps(s, name, node);
    case RequestDelete(name) => NodesGrow(s, DeleteNode(s.w, name).value, name, s.runs);
    case EditNode(name, node) => NodesGrow(s, PutNode(s.w, name, node), name, s.runs);
    case MakeServer(server) => NodesGrow(s, AddServer(s.w, server).value.0, "", s.runs);
    case EditServer(id, server) => NodesGrow(s, s.w.(servers := s.w.servers[id := server]), "", s.runs);
    case LoseServer(id) => NodesGrow(s, DropServer(s.w, id), "", s.runs);
  }

  lemma StartKeepsNodes(s: System, a: Action)
    requires NodeInv(s) && Possible(s, a) && a.Start?
    ensures NodeInv(Apply(s, a))
  {
    BeginSyncIsBound(a.kind, a.version.node, a.catalog);
  }

  lemma NewNodeKeeps(s: System, name: string, node: Node)
    requires NodeInv(s) && Enabled(s, NewNode(name, node))
    ensures NodeInv(Apply(s, NewNode(name, node)))
  {
    var t := Apply(s, NewNode(name, node));
    var made := Version(name, node.(uid := s.w.nextUid, deleting := false));
    assert t.w.nodes[name] == made.node && Binding(made.node);
    forall v | v in Current(t.w) ensures v in Current(s.w) || v == made {
      assert v.name != name ==> v.name in s.w.nodes && v.node == s.w.nodes[v.name];
    }
  }

  lemma {:induction false} LegalRuns(s: System, actions: seq<Action>)
    requires Legal(s, actions)
    ensures Runs(s, actions)
    decreases actions
  {
    if actions != [] {
      LegalRuns(Apply(s, actions[0]), actions[1..]);
    }
  }

  lemma {:induction false} AlwaysBound(s: System, actions: seq<Action>)
    requires ServerInv(s) && NodeInv(s) && Legal(s, actions)
    ensures NodeInv(Exec(s, actions))
    decreases actions
  {
    if actions != [] {
      ActionKeepsServers(s, actions[0]);
      ActionKeepsNodes(s, actions[0]);
      AlwaysBound(Apply(s, actions[0]), actions[1..]);
    }
  }

  lemma InitialHolds(s: System)
    requires Initial(s)
    ensures ServerInv(s) && NodeInv(s)
  {
  }

  /** Binding invariants: in every reachable state the server-id label is present exactly when the
      provider id is and prints the id that `parse_provider_id` reads back, and the uninitialized
      taint is missing only from a bound node. */
  lemma BindingInvariants(s: System, actions: seq<Action>, name: string)
    requires Initial(s) && Legal(s, actions) && name in Exec(s, actions).w.nodes
    ensures var n := Exec(s, actions).w.nodes[name];
      && (LABEL_SERVER_ID in n.labels <==> n.providerId.Some?)
      && (n.providerId.Some? ==>
            ParseProviderId(n.providerId.value).Some?
            && n.labels[LABEL_SERVER_ID] == PrintInt(ParseProviderId(n.providerId.value).value))
      && (!Uninitialized(n) ==> n.providerId.Some?)
  {
    InitialHolds(s);
    AlwaysBound(s, actions);
    var w := Exec(s, actions).w;
    assert Version(name, w.nodes[name]) in Current(w);
  }

  /** Once bound, a node object stays bound to the same server whatever happens. */
  lemma BindingIsForever(s: System, before: seq<Action>, after: seq<Action>, name: string)
    requires Initial(s) && Legal(s, before) && Legal(Exec(s, before), after)
    requires name in Exec(s, before).w.nodes && name in Exec(Exec(s, before), after).w.nodes
    requires var m, n := Exec(s, before).w.nodes[name], Exec(Exec(s, before), after).w.nodes[name];
      m.uid == n.uid && m.providerId.Some?
    ensures Exec(Exec(s, before), after).w.nodes[name].providerId == Exec(s, before).w.nodes[name].providerId
  {
    Reached(s, before);
    var mid := Exec(s, before);
    AlwaysBound(mid, after);
    var v := Version(name, mid.w.nodes[name]);
    assert v in Current(mid.w) && v in mid.seen;
    SeenGrows(mid, after, v);
  }

  /** Both invariants hold in every reachable state. */
  lemma Reached(s: System, actions: seq<Action>)
    requires Initial(s) && Legal(s, actions)
    ensures ServerInv(Exec(s, actions)) && NodeInv(Exec(s, actions))
  {
    InitialHolds(s);
    LegalRuns(s, actions);
    ServersAlways(s, actions);
    AlwaysBound(s, actions);
  }

  lemma {:induction false} SeenGrows(s: System, actions: seq<Action>, v: Version)
    requires Legal(s, actions) && v in s.seen
    ensures v in Exec(s, actions).seen
    decreases actions
  {
    if actions != [] {
      SeenGrows(Apply(s, actions[0]), actions[1..], v);
    }
  }

  // ---------- sync runs that meet another server's node ----------

  /** Exactly when patching a node with what a sync run made of another version keeps its binding. */
  lemma StaleSyncExact(read: Node, n: Node, s: Server)
    requires Binding(read) && read.providerId.Some? && Binding(n)
    ensures Binding(ApplyPatch(n, SyncPatch(read, s))) <==> SameServer(read, n)
  {
    assert LABEL_SERVER_ID !in DesiredLabels(s);
    var id := ParseProviderId(read.providerId.value).value;
    ParsePrint(id);
    if n.providerId.Some? {
      ParsePrint(ParseProviderId(n.providerId.value).value);
    }
  }

  /** A stale read of the same node object is harmless: it meets its server in every reachable state. */
  lemma SameObjectMeetsItsServer(s: System, actions: seq<Action>, id: int)
    requires Initial(s) && Legal(s, actions) && id in Exec(s, actions).runs
    requires var t := Exec(s, actions); var r := t.runs[id];
      r.pc.PatchLabels? && r.name in t.w.nodes && t.w.nodes[r.name].uid == r.node.uid
    ensures MeetsItsServer(Exec(s, actions).w, Exec(s, actions).runs[id])
  {
    Reached(s, actions);
    var t := Exec(s, actions);
    var read := Version(t.runs[id].name, t.runs[id].node);
    assert read in t.seen && Binding(read.node);
  }

  ghost predicate AllBound(w: World) {
    forall name :: name in w.nodes ==> Binding(w.nodes[name])
  }

  /** The guard is exact: in every reachable state, an action that can happen keeps all nodes' bindings if and
      only if it is not a sync run's patch of a node that names another server. */
  lemma GuardIsExact(s: System, actions: seq<Action>, a: Action)
    requires Initial(s) && Legal(s, actions) && Possible(Exec(s, actions), a)
    requires a.Call? ==> Exec(s, actions).runs[a.id].name in Apply(Exec(s, actions), a).w.nodes
    ensures AllBound(Apply(Exec(s, actions), a).w) <==> Enabled(Exec(s, actions), a)
  {
    Reached(s, actions);
    var t := Exec(s, actions);
    if Enabled(t, a) {
      ActionKeepsNodes(t, a);
      assert forall v :: v in Current(Apply(t, a).w) ==> Binding(v.node);
      ByVersions(Apply(t, a).w);
    } else {
      UnguardedPatchBreaks(t, a.id);
    }
  }

  lemma UnguardedPatchBreaks(t: System, id: int)
    requires NodeInv(t) && id in t.runs && t.runs[id].pc.PatchLabels? && !MeetsItsServer(t.w, t.runs[id])
    requires var r := t.runs[id]; r.name in Step(t.w, r.name, r.node, r.pc).0.nodes
    ensures var r := t.runs[id]; !Binding(Step(t.w, r.name, r.node, r.pc).0.nodes[r.name])
  {
    var r := t.runs[id];
    var n := t.w.nodes[r.name];
    assert Version(r.name, r.node) in t.seen && Version(r.name, n) in Current(t.w);
    StaleSyncExact(r.node, n, r.pc.server);
    LabelsPatched(t.w, r.name, r.node, r.pc.server);
  }

  lemma LabelsPatched(w: World, name: string, read: Node, server: Server)
    requires name in w.nodes && name in Step(w, name, read, PatchLabels(server)).0.nodes
    ensures Step(w, name, read, PatchLabels(server)).0.nodes[name] == ApplyPatch(w.nodes[name], SyncPatch(read, server))
  {
  }

  lemma ByVersions(w: World)
    requires forall v :: v in Current(w) ==> Binding(v.node)
    ensures AllBound(w)
  {
    forall name | name in w.nodes ensures Binding(w.nodes[name]) {
      assert Version(name, w.nodes[name]) in Current(w);
    }
  }

  // ---------- a run that breaks a binding ----------

  const OLD_SERVER := Server("n", "s", "r", "i", None, [])
  const OLD_NODE :=
    Node(0, map[LABEL_SERVER_ID := PrintInt(0)], map[], [], false, Some(ServerProviderId(0)), [], [])
  const NEW_NODE := Node(1, map[], map[], [], false, None, [Taint(UNINITIALIZED_TAINT, None, "NoSchedule")], [])
  const BEFORE :=
    World(map["n" := OLD_NODE], {}, map[0 := OLD_SERVER], 1, 1)
  const START := System(BEFORE, {Version("n", OLD_NODE)}, map[])

  /** A sync run reads a bound node and its server; the node is deleted and another one, not bound, made under
      its name; then the run patches that one. */
  const BREAKING: seq<Action> := [
    Start(0, Sync, Version("n", OLD_NODE), Catalog({}, {}, {})),
    Call(0, true),
    RequestDelete("n"),
    NewNode("n", NEW_NODE),
    Call(0, true)]

  lemma BreakingStarts()
    ensures Initial(START) && Binding(OLD_NODE) && Binding(NEW_NODE)
  {
    ProviderIdRoundTrip(0);
    assert NEW_NODE.taints[0] in NEW_NODE.taints;
    forall v ensures v in Current(BEFORE) <==> v == Version("n", OLD_NODE) {
      assert Version("n", BEFORE.nodes["n"]) in Current(BEFORE);
    }
  }

  predicate AboutToPatch(s: System) {
    s.runs == map[0 := Run(Sync, "n", OLD_NODE, PatchLabels(OLD_SERVER))]
  }

  /** The first two actions: the run has read node and server, and is about to patch. */
  lemma BreakingReads() returns (s: System, t: System)
    ensures Possible(START, BREAKING[0]) && s == Apply(START, BREAKING[0])
    ensures Possible(s, BREAKING[1]) && t == Apply(s, BREAKING[1])
    ensures t.w == BEFORE && AboutToPatch(t)
  {
    s := Apply(START, BREAKING[0]);
    BreakingBegins();
    assert s.runs == map[0 := Run(Sync, "n", OLD_NODE, FetchServer(0))];
    t := Apply(s, BREAKING[1]);
  }

  lemma BreakingBegins()
    ensures Begin(Sync, OLD_NODE, Catalog({}, {}, {})) == FetchServer(0)
    ensures Step(BEFORE, "n", OLD_NODE, FetchServer(0)) == (BEFORE, PatchLabels(OLD_SERVER))
  {
    ProviderIdRoundTrip(0);
    assert LABEL_INSTANCE_TYPE in DesiredLabels(OLD_SERVER) && LABEL_INSTANCE_TYPE !in OLD_NODE.labels;
    assert NeedsPatch(OLD_NODE, OLD_SERVER);
  }

  /** The next two: another node has taken the name. */
  lemma BreakingReplaces(t: System) returns (u: System, v: System)
    requires t.w == BEFORE && AboutToPatch(t)
    ensures Possible(t, BREAKING[2]) && u == Apply(t, BREAKING[2])
    ensures Possible(u, BREAKING[3]) && v == Apply(u, BREAKING[3])
    ensures v.w.nodes == map["n" := NEW_NODE] && AboutToPatch(v)
  {
    BreakingStarts();
    u := Apply(t, BREAKING[2]);
    assert u.w.nodes == map[] && u.w.nextUid == 1;
    v := Apply(u, BREAKING[3]);
  }

  lemma StaysThere(w: World, name: string, read: Node, server: Server)
    requires name in w.nodes && !w.nodes[name].deleting
    ensures name in Step(w, name, read, PatchLabels(server)).0.nodes
  {
  }

  lemma StalePatchBreaks(w: World, name: string, read: Node, server: Server)
    requires name in w.nodes && !w.nodes[name].deleting && Binding(w.nodes[name])
    requires Binding(read) && read.providerId.Some? && !SameServer(read, w.nodes[name])
    ensures !AllBound(Step(w, name, read, PatchLabels(server)).0)
  {
    StaysThere(w, name, read, server);
    LabelsPatched(w, name, read, server);
    StaleSyncExact(read, w.nodes[name], server);
  }

  lemma BreakingPatches(v: System)
    requires v.w.nodes == map["n" := NEW_NODE] && AboutToPatch(v)
    ensures Possible(v, BREAKING[4]) && !AllBound(Apply(v, BREAKING[4]).w)
  {
    BreakingStarts();
    StalePatchBreaks(v.w, "n", OLD_NODE, OLD_SERVER);
  }

  /** Without the guard a binding can break: a run of the system, from an initial state, that ends in a node
      labelled with a server it is not bound to. */
  lemma BindingCanBreak()
    ensures Initial(START) && Runs(START, BREAKING) && !AllBound(Exec(START, BREAKING).w)
  {
    BreakingStarts();
    var s, t := BreakingReads();
    var u, v := BreakingReplaces(t);
    BreakingPatches(v);
    var x := Apply(v, BREAKING[4]);
    Unroll(v, BREAKING[4], [], x);
    var last := [BREAKING[4]] + [];
    Unroll(u, BREAKING[3], last, x);
    Unroll(t, BREAKING[2], [BREAKING[3]] + last, x);
    Unroll(s, BREAKING[1], [BREAKING[2]] + ([BREAKING[3]] + last), x);
    Unroll(START, BREAKING[0], [BREAKING[1]] + ([BREAKING[2]] + ([BREAKING[3]] + last)), x);
    FiveActions();
  }

  lemma FiveActions()
    ensures BREAKING == [BREAKING[0]] + ([BREAKING[1]] + ([BREAKING[2]] + ([BREAKING[3]] + ([BREAKING[4]] + []))))
  {
  }

  lemma Unroll(s: System, a: Action, rest: seq<Action>, end: System)
    requires Possible(s, a) && Runs(Apply(s, a), rest) && Exec(Apply(s, a), rest) == end
    ensures Runs(s, [a] + rest) && Exec(s, [a] + rest) == end
  {
    assert ([a] + rest)[1..] == rest;
  }
}
