/** The four node controllers as code that works on the cluster and the cloud call by call, proved
    against the step machine of `Lifecycle`.
 */
module Controllers {
  import opened Wrappers
  import opened Cluster
  import opened Lifecycle
  import opened Answering

  /** How an API call went; after `Cut` the process is gone. */
  datatype Reply = Good | Bad | Cut

  datatype Outcome = Finished | Error | Interrupted

  function Ending(pc: Pc): Outcome {
    if pc.Done? then Finished else if pc.Failed? then Error else Interrupted
  }

  function Reported(reply: Reply): Outcome
    requires reply != Good
  {
    if reply == Bad then Error else Interrupted
  }

  /** The run that stood before call `pc` has ended in world `v` with this outcome. */
  ghost predicate Ran(w: World, answers: Answers, name: string, n: Node, pc: Pc, v: World, outcome: Outcome) {
    var (u, last) := Calls(w, name, n, pc, answers);
    v == u && outcome == Ending(last)
  }

  /** The run that stood before call `pc` has got to stand before call `next`. */
  ghost predicate Leads(w: World, answers: Answers, name: string, n: Node, pc: Pc, v: World, left: Answers, next: Pc) {
    Calls(w, name, n, pc, answers) == Calls(v, name, n, next, left)
  }

  function FirstKeys(pairs: seq<(string, string)>, i: nat): set<string>
    requires i <= |pairs|
  {
    set j | 0 <= j < i :: pairs[j].0
  }

  class NodeControllers {
    const catalog: Catalog
    var world: World
    var answers: Answers

    constructor (world: World, catalog: Catalog, answers: Answers)
      ensures this.world == world && this.catalog == catalog && this.answers == answers
    {
      this.world, this.catalog, this.answers := world, catalog, answers;
    }

    /** How the next call is answered. */
    method Ask() returns (reply: Reply)
      modifies this`answers
      ensures old(answers) == [] ==> reply == Cut && answers == []
      ensures old(answers) != [] ==> answers == old(answers)[1..] && reply == if old(answers)[0] then Good else Bad
    {
      if answers == [] { return Cut; }
      reply := if answers[0] then Good else Bad;
      answers := answers[1..];
    }

    /** What every call does with the answers: without one the process is gone; a call that is not
        answered well has no effect. */
    twostate predicate Called(reply: Reply)
      reads this
    {
      && (old(answers) == [] ==> reply == Cut && answers == [])
      && (old(answers) != [] ==> answers == old(answers)[1..] && reply != Cut && (!old(answers)[0] ==> reply == Bad))
      && (reply != Good ==> world == old(world))
    }

    method SendPatch(name: string, p: NodePatch) returns (reply: Reply)
      modifies this
      ensures Called(reply)
      ensures reply == Good ==> PatchNode(old(world), name, p) == Some(world)
      ensures reply == Bad && old(answers)[0] ==> PatchNode(old(world), name, p).None?
    {
      reply := Ask();
      if reply == Good {
        match PatchNode(world, name, p)
        case Some(v) => world := v;
        case None => reply := Bad;
      }
    }

    method SendDeleteNode(name: string) returns (reply: Reply)
      modifies this
      ensures Called(reply)
      ensures reply == Good ==> DeleteNode(old(world), name) == Some(world)
      ensures reply == Bad && old(answers)[0] ==> DeleteNode(old(world), name).None?
    {
      reply := Ask();
      if reply == Good {
        match DeleteNode(world, name)
        case Some(v) => world := v;
        case None => reply := Bad;
      }
    }

    method SendDeleteServer(id: int) returns (reply: Reply)
      modifies this
      ensures Called(reply)
      ensures reply == Good ==> world == DropServer(old(world), id)
      ensures reply == Bad ==> !old(answers)[0]
    {
      reply := Ask();
      if reply == Good { world := DropServer(world, id); }
    }

    /** `delete_secret_if_exists` */
    method DeleteSecret(secret: string) returns (reply: Reply)
      modifies this
      ensures Called(reply)
      ensures reply == Good ==> world == DropSecret(old(world), secret)
      ensures reply == Bad ==> !old(answers)[0]
    {
      reply := Ask();
      if reply == Good && secret in world.secrets {
        world := DropSecret(world, secret);
      }
      assert secret !in old(world.secrets) ==> old(world.secrets) - {secret} == old(world.secrets);
    }

    // ---------- node deletion ----------

    /** The teardown of a node that is being deleted and has our finalizer. */
    method Teardown(name: string, node: Node, serverId: Option<int>) returns (outcome: Outcome)
      modifies this
      ensures Ran(old(world), old(answers), name, node,
                  if serverId.Some? then DeleteServer(serverId.value) else DeletePassword, world, outcome)
    {
      var reply;
      if serverId.Some? {
        reply := SendDeleteServer(serverId.value);
        if reply != Good { return Reported(reply); }
      }
      outcome := TeardownSecrets(name, node);
    }

    method TeardownSecrets(name: string, node: Node) returns (outcome: Outcome)
      modifies this
      ensures Ran(old(world), old(answers), name, node, DeletePassword, world, outcome)
    {
      var reply := DeleteSecret(PasswordSecret(name));
      if reply != Good { return Reported(reply); }
      assert Leads(old(world), old(answers), name, node, DeletePassword, world, answers, DeleteUserData);
      outcome := TeardownRest(name, node);
    }

    method TeardownRest(name: string, node: Node) returns (outcome: Outcome)
      modifies this
      ensures Ran(old(world), old(answers), name, node, DeleteUserData, world, outcome)
    {
      var reply := DeleteSecret(UserDataSecret(name));
      if reply != Good { return Reported(reply); }
      assert Leads(old(world), old(answers), name, node, DeleteUserData, world, answers, DropFinalizer);
      label A:
      reply := SendPatch(name, FinalizerPatch(WithoutFinalizer(node.finalizers)));
      outcome := if reply == Good then Finished else Reported(reply);
      assert Ran(old@A(world), old@A(answers), name, node, DropFinalizer, world, outcome);
    }

    /** The cleanup after a bound server that no longer exists. */
    method CleanUpAfterServer(name: string, node: Node) returns (outcome: Outcome)
      modifies this
      ensures Ran(old(world), old(answers), name, node, GonePassword, world, outcome)
    {
      var reply := DeleteSecret(PasswordSecret(name));
      if reply != Good { return Reported(reply); }
      assert Leads(old(world), old(answers), name, node, GonePassword, world, answers, GoneUserData);
      outcome := CleanUpRest(name, node);
    }

    method CleanUpRest(name: string, node: Node) returns (outcome: Outcome)
      modifies this
      ensures Ran(old(world), old(answers), name, node, GoneUserData, world, outcome)
    {
      var reply := DeleteSecret(UserDataSecret(name));
      if reply != Good { return Reported(reply); }
      assert Leads(old(world), old(answers), name, node, GoneUserData, world, answers, GoneNode);
      label A:
      reply := SendDeleteNode(name);
      outcome := if reply == Good then Finished else Reported(reply);
      assert Ran(old@A(world), old@A(answers), name, node, GoneNode, world, outcome);
    }

    method AddFinalizer(name: string, node: Node, serverId: Option<int>) returns (outcome: Outcome)
      requires serverId == BoundId(node)
      modifies this
      ensures Ran(old(world), old(answers), name, node, KeepFinalizer(node), world, outcome)
    {
      if (serverId.Some? || HasProvisionLabels(node) || ANNOTATION_ADOPT in node.annotations) && !HasFinalizer(node) {
        var reply := SendPatch(name, FinalizerPatch(node.finalizers + [FINALIZER]));
        outcome := if reply == Good then Finished else Reported(reply);
      } else {
        outcome := Finished;
      }
    }

    method ReconcileDeletion(name: string, node: Node) returns (outcome: Outcome)
      modifies this
      ensures Ran(old(world), old(answers), name, node, Begin(Deletion, node, catalog), world, outcome)
    {
      var serverId := BoundId(node);
      if serverId.None? && !HasFinalizer(node) && !HasProvisionLabels(node) { return Finished; }
      if node.deleting && HasFinalizer(node) {
        outcome := Teardown(name, node, serverId);
        return;
      }
      if serverId.Some? {
        var reply := Ask();
        if reply != Good { return Reported(reply); }
        if serverId.value !in world.servers {
          assert Leads(old(world), old(answers), name, node, CheckServer(serverId.value), world, answers, GonePassword);
          outcome := CleanUpAfterServer(name, node);
          return;
        }
        assert Leads(old(world), old(answers), name, node, CheckServer(serverId.value), world, answers,
            KeepFinalizer(node));
      }
      outcome := AddFinalizer(name, node, serverId);
    }

    // ---------- provisioning ----------

    method EnsureFinalizer(name: string, node: Node) returns (reply: Reply)
      modifies this
      ensures reply == Good ==> Leads(old(world), old(answers), name, node, GetNode, world, answers, ReadPassword)
      ensures reply != Good ==> Ran(old(world), old(answers), name, node, GetNode, world, Reported(reply))
    {
      reply := Ask();
      if reply == Good && name !in world.nodes { reply := Bad; }
      if reply != Good { return; }
      var current := world.nodes[name];
      if !HasFinalizer(current) {
        var finalizers := current.finalizers;
        finalizers := finalizers + [FINALIZER];
        assert Leads(old(world), old(answers), name, node, GetNode, world, answers, PushFinalizer(finalizers));
        label A:
        reply := SendPatch(name, FinalizerPatch(finalizers));
        if reply == Good {
          assert Leads(old@A(world), old@A(answers), name, node, PushFinalizer(finalizers), world, answers,
              ReadPassword);
        } else {
          assert Ran(old@A(world), old@A(answers), name, node, PushFinalizer(finalizers), world, Reported(reply));
        }
      }
    }

    /** Reads the password secret, any error counting as absent, and writes a new one if there is none. */
    method EnsurePassword(name: string, node: Node) returns (reply: Reply)
      modifies this
      ensures reply == Good ==> Leads(old(world), old(answers), name, node, ReadPassword, world, answers, ReadUserData)
      ensures reply != Good ==> Ran(old(world), old(answers), name, node, ReadPassword, world, Reported(reply))
    {
      reply := Ask();
      if reply == Cut { return; }
      if reply == Good && PasswordSecret(name) in world.secrets { return; }
      assert Leads(old(world), old(answers), name, node, ReadPassword, world, answers, WritePassword);
      label A:
      reply := Ask();
      if reply == Good {
        world := PutSecret(world, PasswordSecret(name));
        assert Leads(old@A(world), old@A(answers), name, node, WritePassword, world, answers, ReadUserData);
      } else {
        assert Ran(old@A(world), old@A(answers), name, node, WritePassword, world, Reported(reply));
      }
    }

    /** The server of that name, looked up first so that a retry does not create a second one. */
    method LookupOrCreate(name: string, node: Node) returns (reply: Reply, id: int, created: bool)
      modifies this
      ensures reply == Good ==> Leads(old(world), old(answers), name, node, Lookup, world, answers,
          BindServer(id, created))
      ensures reply != Good ==> Ran(old(world), old(answers), name, node, Lookup, world, Reported(reply))
    {
      id, created := 0, false;
      reply := Ask();
      if reply != Good { return; }
      var existing := FindServer(world, name);
      if existing.Some? {
        id := existing.value;
        return;
      }
      assert Leads(old(world), old(answers), name, node, Lookup, world, answers, CreateServer);
      label A:
      reply := Ask();
      if reply == Good {
        match AddServer(world, NewServer(name, node))
        case Some((v, new_id)) => world, id, created := v, new_id, true;
        case None => reply := Bad;
      }
      if reply == Good {
        assert Leads(old@A(world), old@A(answers), name, node, CreateServer, world, answers, BindServer(id, created));
      } else {
        assert Ran(old@A(world), old@A(answers), name, node, CreateServer, world, Reported(reply));
      }
    }

    method ReadUserDataSecret(name: string, node: Node) returns (reply: Reply)
      modifies this
      ensures reply == Good ==> Leads(old(world), old(answers), name, node, ReadUserData, world, answers, Lookup)
      ensures reply != Good ==> Ran(old(world), old(answers), name, node, ReadUserData, world, Reported(reply))
    {
      reply := Ask();
    }

    method BindToServer(name: string, node: Node, id: int, created: bool) returns (reply: Reply)
      modifies this
      ensures reply == Good ==> Leads(old(world), old(answers), name, node, BindServer(id, created), world, answers,
          ClearFailed)
      ensures reply != Good ==> Ran(old(world), old(answers), name, node, BindServer(id, created), world,
          Reported(reply))
    {
      reply := SendPatch(name, BindPatch(id));
    }

    method ProvisionNode(name: string, node: Node) returns (reply: Reply)
      modifies this
      ensures reply == Good ==> Leads(old(world), old(answers), name, node, GetNode, world, answers, ClearFailed)
      ensures reply != Good ==> Ran(old(world), old(answers), name, node, GetNode, world, Reported(reply))
    {
      reply := EnsureFinalizer(name, node);
      if reply != Good { return; }
      reply := EnsurePassword(name, node);
      if reply != Good { return; }
      reply := ReadUserDataSecret(name, node);
      if reply != Good { return; }
      var id, created;
      reply, id, created := LookupOrCreate(name, node);
      if reply != Good { return; }
      reply := BindToServer(name, node, id, created);
    }

    /** A patch whose error is only logged. */
    method MarkOrClear(name: string, node: Node, hash: Option<string>) returns (outcome: Outcome)
      modifies this
      ensures Ran(old(world), old(answers), name, node,
                  if hash.Some? then MarkFailed(hash.value) else ClearFailed, world, outcome)
    {
      var reply := SendPatch(name, FailedPatch(hash));
      outcome := if reply == Cut then Interrupted else Finished;
    }

    method MissingLabels(labels: map<string, string>) returns (missing: seq<string>)
      ensures missing == [] <==> LABEL_SIZE in labels && LABEL_REGION in labels && LABEL_IMAGE in labels
      ensures forall k :: k in missing <==> k in {LABEL_SIZE, LABEL_REGION, LABEL_IMAGE} && k !in labels
    {
      missing := [];
      if LABEL_SIZE !in labels { missing := missing + [LABEL_SIZE]; }
      if LABEL_REGION !in labels { missing := missing + [LABEL_REGION]; }
      if LABEL_IMAGE !in labels { missing := missing + [LABEL_IMAGE]; }
    }

    method ReconcileProvision(name: string, node: Node) returns (outcome: Outcome)
      modifies this
      ensures Ran(old(world), old(answers), name, node, Begin(Provision, node, catalog), world, outcome)
    {
      if LABEL_SERVER_ID in node.labels { return Finished; }
      if node.deleting { return Finished; }
      if !HasProvisionLabels(node) { return Finished; }
      var hash := ConfigHash(node.labels);
      if ANNOTATION_PROVISION_FAILED in node.annotations && node.annotations[ANNOTATION_PROVISION_FAILED] == hash {
        return Finished;
      }
      var missing := MissingLabels(node.labels);
      if missing != []
         || node.labels[LABEL_SIZE] !in catalog.sizes
         || node.labels[LABEL_REGION] !in catalog.regions
         || node.labels[LABEL_IMAGE] !in catalog.images
      {
        outcome := MarkOrClear(name, node, Some(hash));
        return;
      }
      var reply := ProvisionNode(name, node);
      if reply != Good { return Reported(reply); }
      outcome := MarkOrClear(name, node, None);
    }

    // ---------- adoption ----------

    method ReconcileBind(name: string, node: Node) returns (outcome: Outcome)
      modifies this
      ensures Ran(old(world), old(answers), name, node, Begin(Bind, node, catalog), world, outcome)
    {
      if ANNOTATION_ADOPT !in node.annotations { return Finished; }
      if LABEL_SERVER_ID in node.labels { return Finished; }
      outcome := BindNode(name, node);
    }

    method BindNode(name: string, node: Node) returns (outcome: Outcome)
      modifies this
      ensures Ran(old(world), old(answers), name, node, AdoptLookup, world, outcome)
    {
      var reply := Ask();
      if reply != Good { return Reported(reply); }
      var server := FindServer(world, name);
      if server.None? { return Finished; }
      assert Leads(old(world), old(answers), name, node, AdoptLookup, world, answers, AdoptBind(server.value));
      outcome := Adopt(name, node, server.value);
    }

    method Adopt(name: string, node: Node, id: int) returns (outcome: Outcome)
      modifies this
      ensures Ran(old(world), old(answers), name, node, AdoptBind(id), world, outcome)
    {
      var reply := SendPatch(name, BindPatch(id));
      outcome := if reply == Good then Finished else Reported(reply);
    }

    // ---------- sync ----------

    /** The addresses sync wants, network by network; private addresses only inside a VPC. */
    method BuildAddresses(server: Server) returns (addresses: seq<Address>)
      ensures addresses == DesiredAddresses(server)
    {
      addresses := [];
      var i := 0;
      while i < |server.networks|
        invariant 0 <= i <= |server.networks|
        invariant addresses == NetworkAddresses(server.networks[..i], server.vpc)
      {
        var net := server.networks[i];
        assert server.networks[..i + 1][..i] == server.networks[..i];
        if net.kind == "public" {
          addresses := addresses + [Address("ExternalIP", net.address)];
        } else if net.kind == "private" && server.vpc.Some? {
          addresses := addresses + [Address("InternalIP", net.address)];
        }
        i := i + 1;
      }
      assert server.networks[..i] == server.networks;
      addresses := addresses + [Address("Hostname", server.name)];
    }

    /** The labels sync wants, and whether one of its three was missing or different. */
    method MergeLabels(current: map<string, string>, server: Server)
      returns (labels: map<string, string>, changed: bool)
      ensures labels == current + DesiredLabels(server)
      ensures changed <==>
        exists k :: k in DesiredLabels(server) && !(k in current && current[k] == DesiredLabels(server)[k])
    {
      var desired := [(LABEL_INSTANCE_TYPE, server.size), (LABEL_TOPOLOGY_REGION, server.region),
          (LABEL_CLOUD_PROVIDER, PROVIDER_NAME)];
      labels, changed := current, false;
      var i := 0;
      while i < |desired|
        invariant 0 <= i <= |desired|
        invariant forall k :: k !in FirstKeys(desired, i) ==>
            (k in labels <==> k in current) && (k in labels ==> labels[k] == current[k])
        invariant forall j :: 0 <= j < i ==> desired[j].0 in labels && labels[desired[j].0] == desired[j].1
        invariant changed <==>
          exists j :: 0 <= j < i && !(desired[j].0 in current && current[desired[j].0] == desired[j].1)
      {
        var (k, v) := desired[i];
        assert k !in FirstKeys(desired, i);
        if !(k in labels && labels[k] == v) {
          labels := labels[k := v];
          changed := true;
        }
        i := i + 1;
      }
      assert forall j :: 0 <= j < 3 ==>
        desired[j].0 in DesiredLabels(server) && DesiredLabels(server)[desired[j].0] == desired[j].1;
      assert forall k :: k in DesiredLabels(server) ==> k == desired[0].0 || k == desired[1].0 || k == desired[2].0;
      assert forall k :: k in FirstKeys(desired, 3) <==> k in DesiredLabels(server);
    }

    /** The one or two patches of a sync run that found something to write. */
    method WriteNode(name: string, node: Node, server: Server, needsUpdate: bool, needsStatusUpdate: bool,
                     labels: map<string, string>, addresses: seq<Address>) returns (outcome: Outcome)
      requires needsStatusUpdate == NeedsAddresses(node, server) && (needsUpdate || needsStatusUpdate)
      requires labels == node.labels + DesiredLabels(server) && addresses == DesiredAddresses(server)
      modifies this
      ensures Ran(old(world), old(answers), name, node,
                  if needsUpdate then PatchLabels(server) else PatchAddresses(server), world, outcome)
    {
      var reply;
      if needsUpdate {
        var taints := WithoutUninitialized(node.taints);
        reply := SendPatch(name, EMPTY_PATCH.(labels := Assign(labels), taints := Some(taints)));
        if reply != Good { return Reported(reply); }
        assert Leads(old(world), old(answers), name, node, PatchLabels(server), world, answers,
                     if needsStatusUpdate then PatchAddresses(server) else Done);
      }
      if needsStatusUpdate {
        outcome := WriteAddresses(name, node, server, addresses);
      } else {
        outcome := Finished;
      }
    }

    method WriteAddresses(name: string, node: Node, server: Server, addresses: seq<Address>) returns (outcome: Outcome)
      requires addresses == DesiredAddresses(server)
      modifies this
      ensures Ran(old(world), old(answers), name, node, PatchAddresses(server), world, outcome)
    {
      var reply := SendPatch(name, EMPTY_PATCH.(addresses := Some(addresses)));
      outcome := if reply == Good then Finished else Reported(reply);
    }

    method SyncNode(name: string, node: Node, id: int) returns (outcome: Outcome)
      modifies this
      ensures Ran(old(world), old(answers), name, node, FetchServer(id), world, outcome)
    {
      var reply := Ask();
      if reply != Good { return Reported(reply); }
      if id !in world.servers { return Finished; }
      var server := world.servers[id];
      var addresses := BuildAddresses(server);
      var labels, changed := MergeLabels(node.labels, server);
      var needsUpdate := changed || Uninitialized(node);
      assert needsUpdate <==> NeedsPatch(node, server);
      var needsStatusUpdate := node.addresses != addresses;
      if !needsUpdate && !needsStatusUpdate { return Finished; }
      assert Leads(old(world), old(answers), name, node, FetchServer(id), world, answers,
                   if needsUpdate then PatchLabels(server) else PatchAddresses(server));
      outcome := WriteNode(name, node, server, needsUpdate, needsStatusUpdate, labels, addresses);
    }

    method ReconcileSync(name: string, node: Node) returns (outcome: Outcome)
      modifies this
      ensures Ran(old(world), old(answers), name, node, Begin(Sync, node, catalog), world, outcome)
    {
      if node.deleting { return Finished; }
      var serverId := BoundId(node);
      if serverId.None? { return Finished; }
      outcome := SyncNode(name, node, serverId.value);
    }
  }
}
