/** The life of one node from scale-up to its removal. Regime: crash-atomic, nothing else happens. */
module WholeLife {
  import opened Wrappers
  import opened Text
  import opened Cluster
  import opened Lifecycle
  import opened Answering
  import opened Autoscaler
  import opened Scaling
  import opened Provisioning
  import Interleaved
  import Sync
  import Teardown

  // ---------- scale-up ----------

  function Secrets(g: Group, name: string): set<string> {
    {PasswordSecret(name)} + (if g.hasUserData then {UserDataSecret(name)} else {})
  }

  /** What making a node under a new name leaves. */
  function Made(w: World, g: Group, name: string): World
    requires g.name.Some?
  {
    w.(nodes := w.nodes[name := NewNode(g.name.value, g, name).(uid := w.nextUid)],
       nextUid := w.nextUid + 1,
       secrets := w.secrets + Secrets(g, name))
  }

  lemma MakesNode(w: World, g: Group, name: string, answers: Answers)
    requires g.name.Some? && name !in w.nodes && MakeNode(w, g, name, answers).2 == Fine
    ensures MakeNode(w, g, name, answers).0 == Made(w, g, name)
  {
    assert w.secrets + {UserDataSecret(name)} + {PasswordSecret(name)}
        == w.secrets + ({PasswordSecret(name)} + {UserDataSecret(name)});
    assert w.secrets + {PasswordSecret(name)} == w.secrets + ({PasswordSecret(name)} + {});
  }

  // ---------- provisioning ----------

  /** A node with our finalizer and its password, and no server of its name. */
  ghost predicate Unserved(w: World, name: string) {
    && name in w.nodes && HasFinalizer(w.nodes[name]) && !w.nodes[name].deleting
    && w.nodes[name].providerId.None?
    && PasswordSecret(name) in w.secrets
    && (forall id :: !Named(w, id, name))
    && 0 <= w.nextServer <= I64_MAX
  }

  /** What provisioning a node leaves: one server more, and the node bound to it. */
  function Provisioned(w: World, name: string): World
    requires name in w.nodes
  {
    w.(servers := w.servers[w.nextServer := NewServer(name, w.nodes[name])],
       nextServer := w.nextServer + 1,
       nodes := w.nodes[name := WithoutMark(BoundNode(w.nodes[name], w.nextServer))])
  }

  lemma AnsweredProvision(w: World, name: string, c: Catalog, answers: Answers)
    requires Unserved(w, name) && BeginProvision(w.nodes[name], c) == GetNode && Answered(answers) >= 7
    ensures Calls(w, name, w.nodes[name], BeginProvision(w.nodes[name], c), answers) == (Provisioned(w, name), Done)
  {
    assert !Serves(w, name) by {
      assert forall id :: id in w.servers ==> !Named(w, id, name);
    }
    assert Mark(w.nodes[name].labels) == ConfigHash(w.nodes[name].labels);
    var id := AnsweredRunProvisions(w, name, c, answers);
    assert w.secrets + {PasswordSecret(name)} == w.secrets;
    assert ProvisionedWith(w, name, id) == Provisioned(w, name);
  }

  // ---------- the whole life ----------

  /** Nothing of that name is there yet. */
  ghost predicate Fresh(w: World, name: string) {
    && Interleaved.ServersOk(w) && w.nextServer <= I64_MAX
    && name !in w.nodes && (forall id :: !Named(w, id, name))
    && PasswordSecret(name) !in w.secrets && UserDataSecret(name) !in w.secrets
  }

  /** The group's configuration is on offer, and its template does not mark it as failed. */
  predicate Provisionable(g: Group, name: string, c: Catalog)
    requires g.name.Some?
  {
    var n := NewNode(g.name.value, g, name);
    Valid(n.labels, c) && !Latched(n)
  }

  lemma MadeIsUnserved(w: World, g: Group, name: string, c: Catalog)
    requires Fresh(w, name) && g.name.Some? && Provisionable(g, name, c)
    ensures var v := Made(w, g, name); Unserved(v, name) && BeginProvision(v.nodes[name], c) == GetNode
  {
    BornReady(g.name.value, g, name);
    var v := Made(w, g, name);
    assert forall id :: Named(v, id, name) ==> Named(w, id, name);
  }

  /** A world that differs from `w` in a node bound to a server, held by our finalizer alone, that server, and
      secrets of the node. */
  ghost predicate Grown(w: World, v: World, name: string, id: int) {
    && name in v.nodes && v.nodes == w.nodes[name := v.nodes[name]]
    && v.nodes[name].finalizers == [FINALIZER] && v.nodes[name].providerId == Some(ServerProviderId(id))
    && LABEL_SERVER_ID in v.nodes[name].labels
    && id in v.servers && v.servers == w.servers[id := v.servers[id]]
    && w.secrets <= v.secrets && v.secrets - w.secrets <= {PasswordSecret(name), UserDataSecret(name)}
  }

  lemma ServersRestored(w: World, d: World, name: string, id: int)
    requires IsI64(id) && id !in w.servers && Grown(w, d, name, id)
    ensures Teardown.Torn(d, name, Teardown.STAGES).servers == w.servers
  {
    ProviderIdRoundTrip(id);
    assert Teardown.BoundServer(d.nodes[name]) == {id};
    assert d.servers - {id} == w.servers;
  }

  lemma SecretsRestored(w: World, d: World, name: string, id: int)
    requires Fresh(w, name) && Grown(w, d, name, id)
    ensures Teardown.Torn(d, name, Teardown.STAGES).secrets == w.secrets
  {
    assert d.secrets - {PasswordSecret(name), UserDataSecret(name)} == w.secrets;
    assert Teardown.Torn(d, name, Teardown.STAGES).secrets
        == d.secrets - ({PasswordSecret(name)} + {UserDataSecret(name)});
  }

  lemma NodesRestored(w: World, d: World, name: string, id: int)
    requires Fresh(w, name) && Grown(w, d, name, id) && d.nodes[name].deleting
    ensures Teardown.Torn(d, name, Teardown.STAGES).nodes == w.nodes
  {
    assert [FINALIZER][1..] == [];
    assert WithoutFinalizer([FINALIZER]) == [];
    assert d.nodes - {name} == w.nodes;
  }

  lemma TornDownIs(w: World, d: World, name: string, id: int)
    requires Fresh(w, name) && IsI64(id) && id !in w.servers && Grown(w, d, name, id) && d.nodes[name].deleting
    ensures Teardown.Torn(d, name, Teardown.STAGES) == d.(nodes := w.nodes, servers := w.servers, secrets := w.secrets)
  {
    ServersRestored(w, d, name, id);
    SecretsRestored(w, d, name, id);
    NodesRestored(w, d, name, id);
    OnlyThese(d, name);
  }

  lemma OnlyThese(d: World, name: string)
    requires name in d.nodes
    ensures var u := Teardown.Torn(d, name, Teardown.STAGES);
      u == d.(nodes := u.nodes, servers := u.servers, secrets := u.secrets)
  {
  }

  lemma RemovalUndoes(w: World, v: World, name: string, id: int, cut: seq<Teardown.Attempt>, complete: Teardown.Attempt)
    requires Fresh(w, name) && IsI64(id) && id !in w.servers && Grown(w, v, name, id) && Teardown.Complete(complete)
    ensures Teardown.Attempts(DeleteNode(v, name).value, name, cut + [complete])
         == v.(nodes := w.nodes, servers := w.servers, secrets := w.secrets)
  {
    var d := DeleteNode(v, name).value;
    assert d.nodes == v.nodes[name := v.nodes[name].(deleting := true)];
    assert Grown(w, d, name, id);
    assert BeginBind(d.nodes[name]) == Done;
    Teardown.TeardownConverges(d, name, cut, complete, []);
    assert cut + [complete] + [] == cut + [complete];
    TornDownIs(w, d, name, id);
  }

  lemma IsBound(w: World, name: string)
    requires Unserved(w, name)
    ensures Sync.Syncing(Provisioned(w, name), name, w.nextServer, NewServer(name, w.nodes[name]))
    ensures Provisioned(w, name).nodes[name].providerId == Some(ServerProviderId(w.nextServer))
  {
    ProviderIdRoundTrip(w.nextServer);
    assert PROVIDER_PREFIX == "binarylane:///";
  }

  lemma LastSync(w: World, name: string, syncs: seq<Answers>, sync: Answers)
    requires Unserved(w, name) && name in Sync.Runs(Provisioned(w, name), name, syncs).nodes
    requires Sync.Run(Sync.Runs(Provisioned(w, name), name, syncs), name, sync).1.Done?
    ensures var p, server := Provisioned(w, name), NewServer(name, w.nodes[name]);
      var s := Sync.Run(Sync.Runs(p, name, syncs), name, sync).0;
      && s == With(p, name, Sync.Synced(p.nodes[name], server))
      && BoundId(s.nodes[name]) == Some(w.nextServer) && !Uninitialized(s.nodes[name])
      && s.nodes[name].finalizers == w.nodes[name].finalizers
      && s.nodes[name].providerId == Some(ServerProviderId(w.nextServer)) && LABEL_SERVER_ID in s.nodes[name].labels
  {
    var p, id, server := Provisioned(w, name), w.nextServer, NewServer(name, w.nodes[name]);
    IsBound(w, name);
    Sync.SyncConverges(p, name, server, id, syncs, sync);
    var at := Sync.SyncedIsAccurate(p.nodes[name], server);
  }

  lemma GrownBySync(w: World, g: Group, name: string, s: World)
    requires Fresh(w, name) && g.name.Some?
    requires var v := Made(w, g, name); var p := Provisioned(v, name);
      && name in s.nodes && s == With(p, name, s.nodes[name])
      && s.nodes[name].finalizers == [FINALIZER]
      && s.nodes[name].providerId == Some(ServerProviderId(w.nextServer)) && LABEL_SERVER_ID in s.nodes[name].labels
    ensures Grown(w, s, name, w.nextServer)
    ensures s.servers == w.servers[w.nextServer := Server(name, g.size, g.region, g.image, None, [])]
    ensures s.(nodes := w.nodes, servers := w.servers, secrets := w.secrets)
         == w.(nextServer := w.nextServer + 1, nextUid := w.nextUid + 1)
  {
    var v := Made(w, g, name);
    BornReady(g.name.value, g, name);
    assert NewServer(name, v.nodes[name]) == Server(name, g.size, g.region, g.image, None, []);
    assert s.nodes == w.nodes[name := s.nodes[name]];
  }

  /** A node made by scale-up and provisioned, then synced by any runs of which the last succeeds, is bound to a
      server of its name with its group's configuration, and ready. Deleted, and torn down by any runs of which
      the last is complete, it leaves no trace: the world is as before, but for the two id counters. */
  lemma LifeLeavesNoTrace(w: World, g: Group, name: string, c: Catalog,
                          made: Answers, v: World, provision: Answers, p: World, syncs: seq<Answers>, q: World,
                          sync: Answers, s: World, cut: seq<Teardown.Attempt>, complete: Teardown.Attempt)
    requires Fresh(w, name) && g.name.Some? && Provisionable(g, name, c)
    requires MakeNode(w, g, name, made).0 == v && MakeNode(w, g, name, made).2 == Fine && name in v.nodes
    requires Answered(provision) >= 7
    requires p == Calls(v, name, v.nodes[name], BeginProvision(v.nodes[name], c), provision).0
    requires q == Sync.Runs(p, name, syncs) && name in q.nodes && Sync.Run(q, name, sync) == (s, Done)
    requires Teardown.Complete(complete)
    ensures name in s.nodes && BoundId(s.nodes[name]) == Some(w.nextServer) && !Uninitialized(s.nodes[name])
    ensures s.servers == w.servers[w.nextServer := Server(name, g.size, g.region, g.image, None, [])]
    ensures Teardown.Attempts(DeleteNode(s, name).value, name, cut + [complete])
         == w.(nextServer := w.nextServer + 1, nextUid := w.nextUid + 1)
  {
    MakesNode(w, g, name, made);
    MadeIsUnserved(w, g, name, c);
    AnsweredProvision(v, name, c, provision);
    LastSync(v, name, syncs, sync);
    GrownBySync(w, g, name, s);
    RemovalUndoes(w, s, name, w.nextServer, cut, complete);
  }
}
