/** What node-sync makes of a node. Regime: crash-atomic. Each run starts from a fresh read and may
    stop at any call or meet an error at any call; the server does not change meanwhile.
 */
module Sync {
  import opened Wrappers
  import opened Cluster
  import opened Lifecycle
  import opened Answering
  import opened Lists

  /** The node as sync wants it. */
  function Synced(n: Node, s: Server): Node {
    Labelled(n, s).(addresses := DesiredAddresses(s))
  }

  function Labelled(n: Node, s: Server): Node {
    n.(labels := n.labels + DesiredLabels(s), taints := WithoutUninitialized(n.taints))
  }

  ghost predicate Syncing(w: World, name: string, id: int, s: Server) {
    && name in w.nodes && !w.nodes[name].deleting && BoundId(w.nodes[name]) == Some(id)
    && id in w.servers && w.servers[id] == s
  }

  // ---------- the calls of one run ----------

  lemma LabelPatch(n: Node, s: Server)
    ensures ApplyPatch(n, SyncPatch(n, s)) == Labelled(n, s)
  {
    var all := n.labels + DesiredLabels(s);
    assert MergeMap(n.labels, Assign(all)) == all;
    assert MergeMap(n.annotations, map[]) == n.annotations;
  }

  lemma AddressesPatch(n: Node, s: Server)
    ensures ApplyPatch(n, AddressPatch(s)) == n.(addresses := DesiredAddresses(s))
  {
    assert MergeMap(n.labels, map[]) == n.labels && MergeMap(n.annotations, map[]) == n.annotations;
  }

  lemma {:induction false} NoTaintToDrop(taints: seq<Taint>)
    requires forall t :: t in taints ==> t.key != UNINITIALIZED_TAINT
    ensures WithoutUninitialized(taints) == taints
  {
    if taints != [] {
      NoTaintToDrop(taints[1..]);
    }
  }

  /** Nothing needs patching exactly when the node is as sync wants it. */
  lemma NoPatchNeeded(n: Node, s: Server)
    ensures !NeedsPatch(n, s) <==> Labelled(n, s) == n
    ensures !NeedsPatch(n, s) && !NeedsAddresses(n, s) <==> Synced(n, s) == n
  {
    if !NeedsPatch(n, s) {
      NoTaintToDrop(n.taints);
      assert n.labels + DesiredLabels(s) == n.labels;
    } else if Uninitialized(n) {
      var t :| t in n.taints && t.key == UNINITIALIZED_TAINT;
      assert t !in WithoutUninitialized(n.taints);
    } else {
      var k :| k in DesiredLabels(s) && !(k in n.labels && n.labels[k] == DesiredLabels(s)[k]);
      assert (n.labels + DesiredLabels(s))[k] == DesiredLabels(s)[k];
    }
  }

  /** What a sync run has done to its node when it reaches a call. */
  ghost predicate SyncRun(w: World, name: string, n: Node, s: Server, id: int, pc: Pc, v: World) {
    && (pc.Done? ==> v == With(w, name, Synced(n, s)))
    && (pc.FetchServer? ==> pc.id == id && v == w)
    && (pc.PatchLabels? ==> pc.server == s && v == w)
    && (pc.PatchAddresses? ==> pc.server == s && v == With(w, name, Labelled(n, s)))
    && (pc.Failed? ==> v in {w, With(w, name, Labelled(n, s)), With(w, name, Synced(n, s))})
    && (Ended(pc) || pc.FetchServer? || pc.PatchLabels? || pc.PatchAddresses?)
  }

  /** Where a run goes from the server it fetched. */
  function Found(n: Node, s: Server): Pc {
    if NeedsPatch(n, s) then PatchLabels(s) else if NeedsAddresses(n, s) then PatchAddresses(s) else Done
  }

  lemma FetchGoes(w: World, name: string, s: Server, id: int)
    requires Syncing(w, name, id, s)
    ensures Step(w, name, w.nodes[name], FetchServer(id)) == (w, Found(w.nodes[name], s))
  {
  }

  lemma FetchStep(w: World, name: string, s: Server, id: int)
    requires Syncing(w, name, id, s)
    ensures var (u, next) := Step(w, name, w.nodes[name], FetchServer(id));
      SyncRun(w, name, w.nodes[name], s, id, next, u)
  {
    var n := w.nodes[name];
    assert With(w, name, n) == w by { assert w.nodes[name := n] == w.nodes; }
    NoPatchNeeded(n, s);
    FetchGoes(w, name, s, id);
  }

  lemma LabelStep(w: World, name: string, s: Server, id: int)
    requires Syncing(w, name, id, s)
    ensures var (u, next) := Step(w, name, w.nodes[name], PatchLabels(s));
      SyncRun(w, name, w.nodes[name], s, id, next, u)
  {
    var n := w.nodes[name];
    LabelPatch(n, s);
    if !NeedsAddresses(n, s) { assert Labelled(n, s) == Synced(n, s); }
  }

  lemma AddressStep(w: World, name: string, s: Server, id: int)
    requires Syncing(w, name, id, s)
    ensures var (u, next) := Step(With(w, name, Labelled(w.nodes[name], s)), name, w.nodes[name], PatchAddresses(s));
      SyncRun(w, name, w.nodes[name], s, id, next, u)
  {
    var n := w.nodes[name];
    AddressesPatch(Labelled(n, s), s);
    assert w.nodes[name := Labelled(n, s)][name := Synced(n, s)] == w.nodes[name := Synced(n, s)];
  }

  lemma SyncStep(w: World, name: string, s: Server, id: int, pc: Pc, v: World, answered: bool)
    requires Syncing(w, name, id, s) && SyncRun(w, name, w.nodes[name], s, id, pc, v) && !Ended(pc)
    ensures var (u, next) := StepAnswered(v, name, w.nodes[name], pc, answered);
      SyncRun(w, name, w.nodes[name], s, id, next, u)
  {
    if !answered {
      assert Fault(pc).Failed?;
    } else if pc.FetchServer? {
      FetchStep(w, name, s, id);
    } else if pc.PatchLabels? {
      LabelStep(w, name, s, id);
    } else {
      AddressStep(w, name, s, id);
    }
  }

  lemma {:induction false} SyncCalls(w: World, name: string, s: Server, id: int, pc: Pc, v: World, answers: Answers)
    requires Syncing(w, name, id, s) && SyncRun(w, name, w.nodes[name], s, id, pc, v)
    ensures var (u, last) := Calls(v, name, w.nodes[name], pc, answers);
      SyncRun(w, name, w.nodes[name], s, id, last, u)
    decreases answers
  {
    if !Ended(pc) && answers != [] {
      SyncStep(w, name, s, id, pc, v, answers[0]);
      var (u, next) := StepAnswered(v, name, w.nodes[name], pc, answers[0]);
      SyncCalls(w, name, s, id, next, u, answers[1..]);
    }
  }

  // ---------- any number of runs ----------

  function Run(w: World, name: string, answers: Answers): (World, Pc)
    requires name in w.nodes
  {
    Calls(w, name, w.nodes[name], BeginSync(w.nodes[name]), answers)
  }

  function Runs(w: World, name: string, runs: seq<Answers>): World
    decreases runs
  {
    if runs == [] || name !in w.nodes then w else Runs(Run(w, name, runs[0]).0, name, runs[1..])
  }

  /** However it is cut short, a run leaves the node somewhere on the way, and everything else alone. */
  lemma RunStaysOnTheWay(w: World, name: string, s: Server, id: int, answers: Answers)
    requires Syncing(w, name, id, s)
    ensures var v := Run(w, name, answers).0;
      && Syncing(v, name, id, s)
      && v == With(w, name, v.nodes[name])
      && Synced(v.nodes[name], s) == Synced(w.nodes[name], s)
    ensures var (v, last) := Run(w, name, answers);
      last.Done? ==> v == With(w, name, Synced(w.nodes[name], s))
  {
    var n := w.nodes[name];
    var (v, last) := Run(w, name, answers);
    assert With(w, name, n) == w;
    SyncCalls(w, name, s, id, FetchServer(id), w, answers);
    assert v in {w, With(w, name, Labelled(n, s)), With(w, name, Synced(n, s))};
    SyncedOnce(n, s);
  }

  /** Syncing what is synced, wholly or in part, makes no difference. */
  lemma SyncedOnce(n: Node, s: Server)
    ensures Synced(Labelled(n, s), s) == Synced(n, s) && Synced(Synced(n, s), s) == Synced(n, s)
  {
    NoTaintToDrop(WithoutUninitialized(n.taints));
    assert n.labels + DesiredLabels(s) + DesiredLabels(s) == n.labels + DesiredLabels(s);
  }

  lemma {:induction false} RunsStayOnTheWay(w: World, name: string, s: Server, id: int, runs: seq<Answers>)
    requires Syncing(w, name, id, s)
    ensures var v := Runs(w, name, runs);
      && Syncing(v, name, id, s)
      && v == With(w, name, v.nodes[name])
      && Synced(v.nodes[name], s) == Synced(w.nodes[name], s)
    decreases runs
  {
    if runs == [] {
      assert With(w, name, w.nodes[name]) == w;
    } else {
      RunStaysOnTheWay(w, name, s, id, runs[0]);
      var v := Run(w, name, runs[0]).0;
      RunsStayOnTheWay(v, name, s, id, runs[1..]);
      var u := Runs(v, name, runs[1..]);
      assert With(v, name, u.nodes[name]).nodes == With(w, name, u.nodes[name]).nodes;
    }
  }

  /** Convergence: however many runs were cut short before, a run that succeeds leaves the world as
      one uninterrupted run would, with nothing changed but this node. */
  lemma SyncConverges(w: World, name: string, s: Server, id: int, before: seq<Answers>, answers: Answers)
    requires Syncing(w, name, id, s) && name in Runs(w, name, before).nodes
    requires Run(Runs(w, name, before), name, answers).1.Done?
    ensures Run(Runs(w, name, before), name, answers).0 == With(w, name, Synced(w.nodes[name], s))
  {
    RunsStayOnTheWay(w, name, s, id, before);
    var v := Runs(w, name, before);
    RunStaysOnTheWay(v, name, s, id, answers);
    assert With(v, name, Synced(w.nodes[name], s)).nodes == With(w, name, Synced(w.nodes[name], s)).nodes;
  }

  /** Fixpoint: after a run that succeeded, the next one makes a single read and no write. */
  lemma SyncFixpoint(w: World, name: string, s: Server, id: int, answers: Answers, again: Answers)
    requires Syncing(w, name, id, s) && Run(w, name, answers).1.Done?
    ensures var v := Run(w, name, answers).0;
      && name in v.nodes
      && Step(v, name, v.nodes[name], BeginSync(v.nodes[name])) == (v, Done)
      && Run(v, name, again).0 == v
  {
    RunStaysOnTheWay(w, name, s, id, answers);
    var v := Run(w, name, answers).0;
    SyncedOnce(w.nodes[name], s);
    NoPatchNeeded(v.nodes[name], s);
    RunStaysOnTheWay(v, name, s, id, again);
    assert With(v, name, v.nodes[name]).nodes == v.nodes;
    StopsAtOnce(v, name, s, id, again);
  }

  lemma StopsAtOnce(v: World, name: string, s: Server, id: int, again: Answers)
    requires Syncing(v, name, id, s) && Synced(v.nodes[name], s) == v.nodes[name]
    ensures Run(v, name, again).0 == v
  {
    var n := v.nodes[name];
    NoPatchNeeded(n, s);
    if again != [] {
      assert Step(v, name, n, FetchServer(id)) == (v, Done);
      var next := StepAnswered(v, name, n, FetchServer(id), again[0]).1;
      assert Calls(v, name, n, next, again[1..]) == (v, next);
    }
  }

  lemma {:induction false} TaintsSelected(taints: seq<Taint>) returns (at: seq<nat>)
    ensures Selected(taints, WithoutUninitialized(taints), (t: Taint) => t.key == UNINITIALIZED_TAINT, at)
  {
    if taints == [] {
      at := [];
    } else {
      var rest := TaintsSelected(taints[1..]);
      at := SelectedOneMore(taints, WithoutUninitialized(taints[1..]), (t: Taint) => t.key == UNINITIALIZED_TAINT,
          rest);
    }
  }

  /** Sync disturbs nothing else: all other labels and, in order, all other taints survive, and of
      the rest of the node only the addresses change. */
  lemma SyncDisturbsNothingElse(n: Node, s: Server) returns (at: seq<nat>)
    ensures var m := Synced(n, s);
      && m == n.(labels := m.labels, taints := m.taints, addresses := m.addresses)
      && (forall k :: k in DesiredLabels(s) ==> k in m.labels && m.labels[k] == DesiredLabels(s)[k])
      && (forall k :: k !in DesiredLabels(s) ==>
            (k in m.labels <==> k in n.labels) && (k in m.labels ==> m.labels[k] == n.labels[k]))
      && Selected(n.taints, m.taints, (t: Taint) => t.key == UNINITIALIZED_TAINT, at)
  {
    at := TaintsSelected(n.taints);
  }

  /** A network whose address a node reports: public, or private inside a VPC. */
  predicate Reported(net: Network, vpc: Option<int>) {
    net.kind == "public" || (net.kind == "private" && vpc.Some?)
  }

  predicate IsAddressOf(a: Address, net: Network) {
    a.address == net.address && a.kind == if net.kind == "public" then "ExternalIP" else "InternalIP"
  }

  /** The addresses are those of the reported networks, one each, in their order. */
  ghost predicate AddressesOf(addresses: seq<Address>, networks: seq<Network>, vpc: Option<int>, at: seq<nat>) {
    Collected(networks, addresses, (net: Network) => Reported(net, vpc),
              (net: Network, a: Address) => IsAddressOf(a, net), at)
  }

  lemma {:induction false} NetworkAddressesInOrder(networks: seq<Network>, vpc: Option<int>) returns (at: seq<nat>)
    ensures AddressesOf(NetworkAddresses(networks, vpc), networks, vpc, at)
  {
    at := [];
    if networks != [] {
      var front, last := networks[..|networks| - 1], networks[|networks| - 1];
      var before, y := NetworkAddresses(front, vpc), AddressOf(last, vpc);
      at := NetworkAddressesInOrder(front, vpc);
      at := CollectedPlusOne(front, last, before, y, (net: Network) => Reported(net, vpc),
          (net: Network, a: Address) => IsAddressOf(a, net), at);
      assert networks == front + [last];
      assert NetworkAddresses(networks, vpc) == before + Listed(y);
    }
  }

  /** A synced node says what the server is: its public addresses as external and, if it is in a VPC, its private
      ones as internal, in their order, then its name as host name and nothing else; its size, region and provider;
      and it is not tainted uninitialized any more. */
  lemma SyncedIsAccurate(n: Node, s: Server) returns (at: seq<nat>)
    ensures var m := Synced(n, s);
      && m.addresses != [] && m.addresses[|m.addresses| - 1] == Address("Hostname", s.name)
      && AddressesOf(m.addresses[..|m.addresses| - 1], s.networks, s.vpc, at)
      && !Uninitialized(m)
      && "node.kubernetes.io/instance-type" in m.labels && m.labels["node.kubernetes.io/instance-type"] == s.size
      && "topology.kubernetes.io/region" in m.labels && m.labels["topology.kubernetes.io/region"] == s.region
      && "node.kubernetes.io/cloud-provider" in m.labels
      && m.labels["node.kubernetes.io/cloud-provider"] == "binarylane"
  {
    at := NetworkAddressesInOrder(s.networks, s.vpc);
    var m := Synced(n, s);
    assert m.addresses[..|m.addresses| - 1] == NetworkAddresses(s.networks, s.vpc);
    assert LABEL_INSTANCE_TYPE in DesiredLabels(s) && LABEL_TOPOLOGY_REGION in DesiredLabels(s)
        && LABEL_CLOUD_PROVIDER in DesiredLabels(s);
  }

  // ---------- how a run ends ----------

  /** A node being deleted, one that names no server, and one whose server is gone are left alone, however the run's
      calls are answered. */
  lemma OthersAreLeftAlone(w: World, name: string, answers: Answers)
    requires name in w.nodes
    requires w.nodes[name].deleting || BoundId(w.nodes[name]).None? || BoundId(w.nodes[name]).value !in w.servers
    ensures Run(w, name, answers).0 == w
    ensures Answered(answers) >= 1 ==> Run(w, name, answers).1 == Done
  {
    var n := w.nodes[name];
    var pc := BeginSync(n);
    if pc.FetchServer? && answers != [] {
      var next := StepAnswered(w, name, n, pc, answers[0]).1;
      assert Calls(w, name, n, next, answers[1..]) == (w, next);
    }
  }

  /** What the calls from `pc` on leave if there is no error and no crash before they are done. */
  lemma OnePatch(v: World, name: string, n: Node, pc: Pc, answers: Answers)
    requires (pc.PatchLabels? || pc.PatchAddresses?) && name in v.nodes && !v.nodes[name].deleting
    ensures var (u, next) := Step(v, name, n, pc);
      Calls(v, name, n, pc, answers).0 ==
        if Answered(answers) >= 1 then Calls(u, name, n, next, answers[1..]).0 else v
    ensures var (u, next) := Step(v, name, n, pc);
      && next == (if pc.PatchLabels? && NeedsAddresses(n, pc.server) then PatchAddresses(pc.server) else Done)
      && name in u.nodes && !u.nodes[name].deleting
  {
    if answers != [] && !answers[0] { ErrorEndsRun(v, name, n, pc, answers); }
  }

  /** The last patch, sent to a node of which only labels and taints may have changed. */
  lemma AddressesCall(v: World, name: string, n: Node, s: Server, answers: Answers)
    requires name in v.nodes && !v.nodes[name].deleting
    ensures Calls(v, name, n, PatchAddresses(s), answers).0 ==
      if Answered(answers) == 0 then v else With(v, name, v.nodes[name].(addresses := DesiredAddresses(s)))
  {
    AddressesPatch(v.nodes[name], s);
    if Answered(answers) >= 1 {
      AnsweredCall(v, name, n, PatchAddresses(s), answers);
    } else if answers != [] {
      ErrorEndsRun(v, name, n, PatchAddresses(s), answers);
    }
  }

  lemma SecondPatch(w: World, name: string, s: Server, id: int, answers: Answers)
    requires Syncing(w, name, id, s)
    ensures var n := w.nodes[name];
      Calls(With(w, name, Labelled(n, s)), name, n, PatchAddresses(s), answers).0 ==
        With(w, name, if Answered(answers) == 0 then Labelled(n, s) else Synced(n, s))
  {
    var n := w.nodes[name];
    AddressesCall(With(w, name, Labelled(n, s)), name, n, s, answers);
    WithTwice(w, name, Labelled(n, s), Synced(n, s));
  }

  lemma FirstPatch(w: World, name: string, s: Server, id: int)
    requires Syncing(w, name, id, s)
    ensures var n := w.nodes[name];
      Step(w, name, n, PatchLabels(s)) ==
        (With(w, name, Labelled(n, s)), if NeedsAddresses(n, s) then PatchAddresses(s) else Done)
  {
    LabelPatch(w.nodes[name], s);
  }

  /** With labels or taints to write. */
  lemma BothPatches(w: World, name: string, s: Server, id: int, answers: Answers)
    requires Syncing(w, name, id, s)
    ensures var n := w.nodes[name];
      Calls(w, name, n, PatchLabels(s), answers).0 ==
        if Answered(answers) == 0 then w
        else With(w, name, if Answered(answers) == 1 then Labelled(n, s) else Synced(n, s))
  {
    var n := w.nodes[name];
    FirstPatch(w, name, s, id);
    OnePatch(w, name, n, PatchLabels(s), answers);
    if Answered(answers) >= 1 {
      if NeedsAddresses(n, s) {
        SecondPatch(w, name, s, id, answers[1..]);
      } else {
        assert Labelled(n, s) == Synced(n, s);
      }
    }
  }

  /** What a run does before an error or a crash: a read, then labels and taints if they are not as wanted, then the
      addresses if they are not; and with three calls answered it succeeds. */
  lemma RunExact(w: World, name: string, s: Server, id: int, answers: Answers)
    requires Syncing(w, name, id, s)
    ensures var n, k := w.nodes[name], Answered(answers);
      Run(w, name, answers).0 ==
        if k <= 1 then w
        else if k == 2 && Labelled(n, s) != n then With(w, name, Labelled(n, s))
        else With(w, name, Synced(n, s))
    ensures Answered(answers) >= 3 ==> Run(w, name, answers).1 == Done
  {
    var n := w.nodes[name];
    NoPatchNeeded(n, s);
    FetchGoes(w, name, s, id);
    if Answered(answers) == 0 {
      if answers != [] { ErrorEndsRun(w, name, n, FetchServer(id), answers); }
    } else {
      AnsweredCall(w, name, n, FetchServer(id), answers);
      if NeedsPatch(n, s) {
        BothPatches(w, name, s, id, answers[1..]);
      } else if NeedsAddresses(n, s) {
        AddressesCall(w, name, n, s, answers[1..]);
      } else {
        WithItself(w, name);
      }
      if Answered(answers) >= 3 { AnsweredRunEnds(w, name, s, id, answers); }
    }
  }

  lemma AnsweredRunEnds(w: World, name: string, s: Server, id: int, answers: Answers)
    requires Syncing(w, name, id, s) && Answered(answers) >= 3
    ensures Run(w, name, answers).1 == Done
  {
    var n := w.nodes[name];
    FetchGoes(w, name, s, id);
    AnsweredCall(w, name, n, FetchServer(id), answers);
    var next := Found(n, s);
    if !next.Done? {
      AnsweredCall(w, name, n, next, answers[1..]);
      OnePatch(w, name, n, next, answers[1..]);
      var (v, later) := Step(w, name, n, next);
      if !later.Done? {
        AnsweredCall(v, name, n, later, answers[1..][1..]);
        OnePatch(v, name, n, later, answers[1..][1..]);
      }
    }
  }
}
