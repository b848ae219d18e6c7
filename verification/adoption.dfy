/** What node-bind does to a node that is to be adopted, exactly. Regime: crash-atomic. The run starts from a
    fresh read of its node, nothing else touches that node while it is under way, and it may stop, or meet an error,
    at any call.
 */
module Adoption {
  import opened Wrappers
  import opened Text
  import opened Cluster
  import opened Lifecycle
  import opened Answering
  import opened Provisioning

  /** The node asks to be adopted and has not been. */
  predicate Asks(n: Node) {
    ANNOTATION_ADOPT in n.annotations && LABEL_SERVER_ID !in n.labels
  }

  function Run(w: World, name: string, c: Catalog, answers: Answers): (World, Pc)
    requires name in w.nodes
  {
    Calls(w, name, w.nodes[name], Begin(Bind, w.nodes[name], c), answers)
  }

  /** The node with the provider id and the label of that server. */
  function Adopted(w: World, name: string, id: int): World
    requires name in w.nodes
  {
    With(w, name, BoundNode(w.nodes[name], id))
  }

  /** The API server lets the node have that provider id. */
  predicate MayName(n: Node, id: int) {
    n.providerId.None? || n.providerId == Some("binarylane:///" + PrintInt(id))
  }

  lemma BindCall(w: World, name: string, id: int, answers: Answers)
    requires name in w.nodes && (w.nodes[name].deleting ==> w.nodes[name].finalizers != [])
    ensures Calls(w, name, w.nodes[name], AdoptBind(id), answers) ==
      if answers == [] then (w, AdoptBind(id))
      else if answers[0] && MayName(w.nodes[name], id) then (Adopted(w, name, id), Done)
      else (w, Failed)
  {
    var n := w.nodes[name];
    BindIs(n, id);
    assert ServerProviderId(id) == "binarylane:///" + PrintInt(id);
    if answers != [] {
      var (v, next) := StepAnswered(w, name, n, AdoptBind(id), answers[0]);
      assert Calls(v, name, n, next, answers[1..]) == (v, next);
    }
  }

  /** A node that does not ask, or whose name no server has, is left alone. */
  lemma OthersAreLeftAlone(w: World, name: string, c: Catalog, answers: Answers)
    requires name in w.nodes
    requires !Asks(w.nodes[name]) || forall id :: id in w.servers ==> w.servers[id].name != name
    ensures Run(w, name, c, answers).0 == w
    ensures (!Asks(w.nodes[name]) || Answered(answers) >= 1) ==> Run(w, name, c, answers).1 == Done
  {
    var n := w.nodes[name];
    if Asks(n) && answers != [] {
      assert forall id :: !Named(w, id, name);
      assert FindServer(w, name).None?;
      var next := StepAnswered(w, name, n, AdoptLookup, answers[0]).1;
      assert Calls(w, name, n, next, answers[1..]) == (w, next);
    }
  }

  /** Any other node gets provider id and label of a server of its name, in one patch after one read, if both calls
      are answered and it has no other provider id; nothing else changes, then or otherwise. */
  lemma AdoptionExact(w: World, name: string, c: Catalog, answers: Answers) returns (id: int)
    requires name in w.nodes && (w.nodes[name].deleting ==> w.nodes[name].finalizers != [])
    requires Asks(w.nodes[name]) && exists some :: some in w.servers && w.servers[some].name == name
    ensures id in w.servers && w.servers[id].name == name
    ensures Run(w, name, c, answers).0 ==
      if Answered(answers) >= 2 && MayName(w.nodes[name], id) then Adopted(w, name, id) else w
    ensures Answered(answers) >= 2 ==>
      Run(w, name, c, answers).1 == if MayName(w.nodes[name], id) then Done else Failed
  {
    var n := w.nodes[name];
    var some :| some in w.servers && w.servers[some].name == name;
    assert Named(w, some, name);
    id := FindServer(w, name).value;
    if answers != [] {
      var (v, next) := StepAnswered(w, name, n, AdoptLookup, answers[0]);
      if answers[0] {
        BindCall(w, name, id, answers[1..]);
      } else {
        assert Calls(v, name, n, next, answers[1..]) == (w, next);
      }
    }
  }
}
