/** What a provision run creates. Regime: crash-atomic. The run starts from a fresh read of its node,
    nothing else touches that node while it is under way, and it may stop, or meet an error, at any call.
 */
module Provisioning {
  import opened Wrappers
  import opened Text
  import opened Cluster
  import opened Lifecycle
  import opened Answering
  import opened Interleaved

  /** A server of this name with the configuration of the node's labels, all three on offer. */
  predicate AsConfigured(s: Server, name: string, n: Node, c: Catalog) {
    && s.name == name
    && LABEL_SIZE in n.labels && s.size == n.labels[LABEL_SIZE] && s.size in c.sizes
    && LABEL_REGION in n.labels && s.region == n.labels[LABEL_REGION] && s.region in c.regions
    && LABEL_IMAGE in n.labels && s.image == n.labels[LABEL_IMAGE] && s.image in c.images
  }

  /** The password is in its secret once the run is past it, and nothing was created before. */
  predicate PastPassword(pc: Pc) {
    pc.ReadUserData? || pc.Lookup? || pc.CreateServer? || pc.BindServer? || pc.ClearFailed? || pc.Done?
  }

  predicate BeforeCreate(pc: Pc) {
    pc.GetNode? || pc.PushFinalizer? || pc.ReadPassword? || pc.WritePassword? || pc.ReadUserData? || pc.Lookup?
    || pc.CreateServer?
  }

  /** What a provision run that began in world `w` has done when it reaches a call in world `v`. */
  ghost predicate Provisioned(w: World, v: World, name: string, n: Node, c: Catalog, pc: Pc) {
    && (BeforeCreate(pc) || pc.BindServer? || pc.ClearFailed? || Ended(pc))
    && (BeforeCreate(pc) ==> v.servers == w.servers && v.nextServer == w.nextServer)
    && (PastPassword(pc) ==> PasswordSecret(name) in v.secrets)
    && (v.servers == w.servers || OneMore(w, v, name, n, c))
    && (v.secrets == w.secrets || v.secrets == w.secrets + {PasswordSecret(name)})
    && (forall x :: x != name ==> (x in v.nodes <==> x in w.nodes) && (x in v.nodes ==> v.nodes[x] == w.nodes[x]))
  }

  /** One server more, as configured, its password safe in a secret. */
  ghost predicate OneMore(w: World, v: World, name: string, n: Node, c: Catalog) {
    && w.nextServer in v.servers && v.servers == w.servers[w.nextServer := v.servers[w.nextServer]]
    && AsConfigured(v.servers[w.nextServer], name, n, c)
    && PasswordSecret(name) in v.secrets
  }

  lemma PatchLeaves(w: World, name: string, p: NodePatch)
    ensures var v := OrElse(PatchNode(w, name, p), w);
      && v.servers == w.servers && v.secrets == w.secrets && v.nextServer == w.nextServer
      && forall x :: x != name ==> (x in v.nodes <==> x in w.nodes) && (x in v.nodes ==> v.nodes[x] == w.nodes[x])
  {
  }

  lemma PatchingStep(w: World, v: World, name: string, n: Node, c: Catalog, pc: Pc)
    requires Provisioned(w, v, name, n, c, pc) && (pc.PushFinalizer? || pc.BindServer? || pc.ClearFailed?)
    ensures var (u, next) := Step(v, name, n, pc); Provisioned(w, u, name, n, c, next)
  {
    match pc
    case PushFinalizer(fs) => PatchLeaves(v, name, FinalizerPatch(fs));
    case BindServer(id, _) => PatchLeaves(v, name, BindPatch(id));
    case ClearFailed => PatchLeaves(v, name, FailedPatch(None));
  }

  lemma ProvisionedStep(w: World, v: World, name: string, n: Node, c: Catalog, pc: Pc, answered: bool)
    requires Provisioned(w, v, name, n, c, pc) && !Ended(pc) && Valid(n.labels, c)
    ensures var (u, next) := StepAnswered(v, name, n, pc, answered); Provisioned(w, u, name, n, c, next)
  {
    if answered {
      if pc.PushFinalizer? || pc.BindServer? || pc.ClearFailed? {
        PatchingStep(w, v, name, n, c, pc);
      } else if pc.CreateServer? {
        assert AsConfigured(NewServer(name, n), name, n, c);
      }
    }
  }

  lemma {:induction false} ProvisionedCalls(w: World, v: World, name: string, n: Node, c: Catalog, pc: Pc,
      answers: Answers)
    requires Provisioned(w, v, name, n, c, pc) && Valid(n.labels, c)
    ensures var (u, last) := Calls(v, name, n, pc, answers); Provisioned(w, u, name, n, c, last)
    decreases answers
  {
    if !Ended(pc) && answers != [] {
      ProvisionedStep(w, v, name, n, c, pc, answers[0]);
      var (u, next) := StepAnswered(v, name, n, pc, answers[0]);
      ProvisionedCalls(w, u, name, n, c, next, answers[1..]);
    }
  }

  /** A provision run, however far it gets, creates at most one server. That one has the node's name and
      the validated configuration of its labels, and its password is already in the node's secret.
      No other server, node or secret is touched. */
  lemma CreatesAsConfigured(w: World, name: string, c: Catalog, answers: Answers, id: int)
    requires ServersOk(w) && name in w.nodes && BeginProvision(w.nodes[name], c) == GetNode
    requires id in Calls(w, name, w.nodes[name], GetNode, answers).0.servers && id !in w.servers
    ensures var v := Calls(w, name, w.nodes[name], GetNode, answers).0;
      && id == w.nextServer && AsConfigured(v.servers[id], name, w.nodes[name], c)
      && PasswordSecret(name) in v.secrets
      && (forall other :: other in w.servers ==> other in v.servers && v.servers[other] == w.servers[other])
      && (forall x :: x != name ==> (x in v.nodes <==> x in w.nodes) && (x in v.nodes ==> v.nodes[x] == w.nodes[x]))
      && (forall s :: s != PasswordSecret(name) ==> (s in v.secrets <==> s in w.secrets))
  {
    ProvisionedCalls(w, w, name, w.nodes[name], c, GetNode, answers);
  }

  // ---------- which runs write anything ----------

  /** Provisioning takes the node on: it has one of the three labels and no server id, is not being deleted, and
      does not carry the mark of having failed with this very configuration. */
  predicate Candidate(n: Node) {
    && (LABEL_SIZE in n.labels || LABEL_REGION in n.labels || LABEL_IMAGE in n.labels)
    && LABEL_SERVER_ID !in n.labels && !n.deleting
    && !(ANNOTATION_PROVISION_FAILED in n.annotations && n.annotations[ANNOTATION_PROVISION_FAILED] == Mark(n.labels))
  }

  /** The three values with bars between them, an absent one empty. */
  function Mark(labels: map<string, string>): string {
    var size := if LABEL_SIZE in labels then labels[LABEL_SIZE] else "";
    var region := if LABEL_REGION in labels then labels[LABEL_REGION] else "";
    var image := if LABEL_IMAGE in labels then labels[LABEL_IMAGE] else "";
    size + "|" + region + "|" + image
  }

  predicate OnOffer(labels: map<string, string>, c: Catalog) {
    && (LABEL_SIZE in labels && labels[LABEL_SIZE] in c.sizes)
    && (LABEL_REGION in labels && labels[LABEL_REGION] in c.regions)
    && (LABEL_IMAGE in labels && labels[LABEL_IMAGE] in c.images)
  }

  function Run(w: World, name: string, c: Catalog, answers: Answers): (World, Pc)
    requires name in w.nodes
  {
    Calls(w, name, w.nodes[name], Begin(Provision, w.nodes[name], c), answers)
  }

  /** Any other node is passed over without a call. */
  lemma OthersArePassedOver(w: World, name: string, c: Catalog, answers: Answers)
    requires name in w.nodes && !Candidate(w.nodes[name])
    ensures Run(w, name, c, answers) == (w, Done)
  {
    assert Mark(w.nodes[name].labels) == ConfigHash(w.nodes[name].labels);
  }

  /** A candidate whose configuration is not on offer is marked with it, and nothing else happens. */
  lemma InvalidIsMarked(w: World, name: string, c: Catalog, answers: Answers)
    requires name in w.nodes && Candidate(w.nodes[name]) && !OnOffer(w.nodes[name].labels, c)
    ensures var n := w.nodes[name];
      var marked := n.(annotations := n.annotations[ANNOTATION_PROVISION_FAILED := Mark(n.labels)]);
      Run(w, name, c, answers).0 ==
        if Answered(answers) >= 1 then w.(nodes := w.nodes[name := marked]) else w
    ensures answers != [] ==> Run(w, name, c, answers).1 == Done
  {
    var n := w.nodes[name];
    assert Mark(n.labels) == ConfigHash(n.labels);
    var pc := MarkFailed(Mark(n.labels));
    if answers != [] {
      var p := FailedPatch(Some(Mark(n.labels)));
      assert MergeMap(n.labels, map[]) == n.labels;
      assert MergeMap(n.annotations, p.annotations) == n.annotations[ANNOTATION_PROVISION_FAILED := Mark(n.labels)];
      var (v, next) := StepAnswered(w, name, n, pc, answers[0]);
      assert Calls(v, name, n, next, answers[1..]) == (v, next);
    }
  }

  // ---------- what an answered run leaves ----------

  function Held(n: Node): Node {
    n.(finalizers := if FINALIZER in n.finalizers then n.finalizers else n.finalizers + [FINALIZER])
  }

  function BoundNode(n: Node, id: int): Node {
    n.(labels := n.labels[LABEL_SERVER_ID := PrintInt(id)], providerId := Some("binarylane:///" + PrintInt(id)))
  }

  function WithoutMark(n: Node): Node {
    n.(annotations := n.annotations - {ANNOTATION_PROVISION_FAILED})
  }

  lemma HoldIs(n: Node)
    requires !HasFinalizer(n)
    ensures ApplyPatch(n, FinalizerPatch(n.finalizers + [FINALIZER])) == Held(n)
  {
    assert MergeMap(n.labels, map[]) == n.labels && MergeMap(n.annotations, map[]) == n.annotations;
  }

  lemma BindIs(n: Node, id: int)
    ensures ApplyPatch(n, BindPatch(id)) == BoundNode(n, id)
  {
    var p := BindPatch(id);
    assert MergeMap(n.labels, p.labels) == n.labels[LABEL_SERVER_ID := PrintInt(id)];
    assert MergeMap(n.annotations, map[]) == n.annotations;
    assert PROVIDER_PREFIX == "binarylane:///";
  }

  lemma ClearIs(n: Node)
    ensures ApplyPatch(n, FailedPatch(None)) == WithoutMark(n)
  {
    assert MergeMap(n.labels, map[]) == n.labels;
    assert MergeMap(n.annotations, FailedPatch(None).annotations) == n.annotations - {ANNOTATION_PROVISION_FAILED};
  }

  lemma HeldCalls(w: World, name: string, n: Node, answers: Answers) returns (rest: Answers)
    requires name in w.nodes && !w.nodes[name].deleting
    requires Answered(answers) >= if HasFinalizer(w.nodes[name]) then 1 else 2
    ensures Calls(w, name, n, GetNode, answers)
         == Calls(With(w, name, Held(w.nodes[name])), name, n, ReadPassword, rest)
    ensures Answered(rest) == Answered(answers) - if HasFinalizer(w.nodes[name]) then 1 else 2
  {
    var m := w.nodes[name];
    AnsweredCall(w, name, n, GetNode, answers);
    rest := answers[1..];
    if HasFinalizer(m) {
      WithItself(w, name);
    } else {
      var pc := PushFinalizer(m.finalizers + [FINALIZER]);
      HoldIs(m);
      AnsweredCall(w, name, n, pc, rest);
      assert Step(w, name, n, pc) == (With(w, name, Held(m)), ReadPassword);
      rest := rest[1..];
    }
  }

  lemma PasswordCalls(w: World, name: string, n: Node, answers: Answers) returns (rest: Answers)
    requires Answered(answers) >= if PasswordSecret(name) in w.secrets then 2 else 3
    ensures Calls(w, name, n, ReadPassword, answers) == Calls(PutSecret(w, PasswordSecret(name)), name, n, Lookup, rest)
    ensures Answered(rest) == Answered(answers) - if PasswordSecret(name) in w.secrets then 2 else 3
  {
    AnsweredCall(w, name, n, ReadPassword, answers);
    rest := answers[1..];
    if PasswordSecret(name) in w.secrets {
      assert w.secrets + {PasswordSecret(name)} == w.secrets;
    } else {
      AnsweredCall(w, name, n, WritePassword, rest);
      rest := rest[1..];
    }
    AnsweredCall(PutSecret(w, PasswordSecret(name)), name, n, ReadUserData, rest);
    rest := rest[1..];
  }

  predicate Serves(w: World, name: string) {
    exists id :: id in w.servers && w.servers[id].name == name
  }

  /** The server is there, or is made from the configuration of the labels. */
  function Served(w: World, name: string, n: Node): World
    requires Configured(n)
  {
    if Serves(w, name) then w
    else
      var s := Server(name, n.labels[LABEL_SIZE], n.labels[LABEL_REGION], n.labels[LABEL_IMAGE], None, []);
      w.(servers := w.servers[w.nextServer := s], nextServer := w.nextServer + 1)
  }

  predicate Configured(n: Node) {
    LABEL_SIZE in n.labels && LABEL_REGION in n.labels && LABEL_IMAGE in n.labels
  }

  lemma ServedCalls(w: World, name: string, n: Node, answers: Answers) returns (id: int, created: bool, rest: Answers)
    requires Configured(n) && (Serves(w, name) || w.nextServer <= I64_MAX)
    requires Answered(answers) >= if Serves(w, name) then 1 else 2
    ensures Calls(w, name, n, Lookup, answers) == Calls(Served(w, name, n), name, n, BindServer(id, created), rest)
    ensures if Serves(w, name) then Named(w, id, name) else id == w.nextServer
    ensures Answered(rest) == Answered(answers) - if Serves(w, name) then 1 else 2
  {
    AnsweredCall(w, name, n, Lookup, answers);
    rest := answers[1..];
    var found := FindServer(w, name);
    created := !Serves(w, name);
    if Serves(w, name) {
      var some :| some in w.servers && w.servers[some].name == name;
      assert Named(w, some, name);
      id := found.value;
    } else {
      assert found.Some? ==> Named(w, found.value, name);
      id := w.nextServer;
      AnsweredCall(w, name, n, CreateServer, rest);
      assert Step(w, name, n, CreateServer) == (Served(w, name, n), BindServer(id, true));
      rest := rest[1..];
    }
  }

  lemma BindingCalls(w: World, name: string, n: Node, id: int, created: bool, answers: Answers)
    requires name in w.nodes && !w.nodes[name].deleting && w.nodes[name].providerId.None?
    requires Answered(answers) >= 2
    ensures Calls(w, name, n, BindServer(id, created), answers)
         == (With(w, name, WithoutMark(BoundNode(w.nodes[name], id))), Done)
  {
    var m := w.nodes[name];
    var u := With(w, name, BoundNode(m, id));
    BindIs(m, id);
    AnsweredCall(w, name, n, BindServer(id, created), answers);
    assert Step(w, name, n, BindServer(id, created)) == (u, ClearFailed);
    ClearIs(BoundNode(m, id));
    AnsweredCall(u, name, n, ClearFailed, answers[1..]);
    WithTwice(w, name, BoundNode(m, id), WithoutMark(BoundNode(m, id)));
    assert Step(u, name, n, ClearFailed) == (With(w, name, WithoutMark(BoundNode(m, id))), Done);
  }

  /** How many calls provisioning takes. */
  function CallsNeeded(w: World, name: string): nat
    requires name in w.nodes
  {
    6 + (if FINALIZER in w.nodes[name].finalizers then 0 else 1)
    + (if PasswordSecret(name) in w.secrets then 0 else 1)
    + (if Serves(w, name) then 0 else 1)
  }

  /** What provisioning leaves: the finalizer, the password and the server where they were missing, the node bound
      to that server and without the mark of an earlier failure. Nothing else changes. */
  function ProvisionedWith(w: World, name: string, id: int): World
    requires name in w.nodes && Configured(w.nodes[name])
  {
    var n := w.nodes[name];
    var v := Served(PutSecret(w, PasswordSecret(name)), name, n);
    With(v, name, n.(
      finalizers := if FINALIZER in n.finalizers then n.finalizers else n.finalizers + [FINALIZER],
      labels := n.labels[LABEL_SERVER_ID := PrintInt(id)],
      providerId := Some("binarylane:///" + PrintInt(id)),
      annotations := n.annotations - {ANNOTATION_PROVISION_FAILED}))
  }

  function Prepared(w: World, name: string): World
    requires name in w.nodes
  {
    PutSecret(With(w, name, Held(w.nodes[name])), PasswordSecret(name))
  }

  lemma PreparingCalls(w: World, name: string, answers: Answers) returns (rest: Answers)
    requires name in w.nodes && !w.nodes[name].deleting && Answered(answers) >= CallsNeeded(w, name)
    ensures Calls(w, name, w.nodes[name], GetNode, answers)
         == Calls(Prepared(w, name), name, w.nodes[name], Lookup, rest)
    ensures Answered(rest) >= 3 + if Serves(w, name) then 0 else 1
  {
    rest := HeldCalls(w, name, w.nodes[name], answers);
    rest := PasswordCalls(With(w, name, Held(w.nodes[name])), name, w.nodes[name], rest);
  }

  lemma ServingCalls(w: World, name: string, n: Node, answers: Answers) returns (id: int)
    requires name in w.nodes && !w.nodes[name].deleting && w.nodes[name].providerId.None? && Configured(n)
    requires Serves(w, name) || w.nextServer <= I64_MAX
    requires Answered(answers) >= 3 + if Serves(w, name) then 0 else 1
    ensures Calls(w, name, n, Lookup, answers)
         == (With(Served(w, name, n), name, WithoutMark(BoundNode(w.nodes[name], id))), Done)
    ensures if Serves(w, name) then Named(w, id, name) else id == w.nextServer
  {
    var created, rest;
    id, created, rest := ServedCalls(w, name, n, answers);
    BindingCalls(Served(w, name, n), name, n, id, created, rest);
  }

  lemma EndIs(w: World, name: string, id: int)
    requires name in w.nodes && Configured(w.nodes[name])
    ensures With(Served(Prepared(w, name), name, w.nodes[name]), name, WithoutMark(BoundNode(Held(w.nodes[name]), id)))
         == ProvisionedWith(w, name, id)
  {
    var n := w.nodes[name];
    WithTwice(Served(PutSecret(w, PasswordSecret(name)), name, n), name, Held(n), WithoutMark(BoundNode(Held(n), id)));
  }

  /** A run on an unbound candidate whose configuration is on offer, with as many calls answered as it takes, is
      done and binds the node: to a server of its name if there is one, otherwise to one it makes. */
  lemma AnsweredRunProvisions(w: World, name: string, c: Catalog, answers: Answers) returns (id: int)
    requires name in w.nodes && Candidate(w.nodes[name]) && OnOffer(w.nodes[name].labels, c)
    requires w.nodes[name].providerId.None? && (Serves(w, name) || w.nextServer <= I64_MAX)
    requires Answered(answers) >= CallsNeeded(w, name)
    ensures Run(w, name, c, answers) == (ProvisionedWith(w, name, id), Done)
    ensures if Serves(w, name) then Named(w, id, name) else id == w.nextServer
  {
    var n := w.nodes[name];
    assert Mark(n.labels) == ConfigHash(n.labels);
    var rest := PreparingCalls(w, name, answers);
    id := ServingCalls(Prepared(w, name), name, n, rest);
    EndIs(w, name, id);
  }

  /** A run whose node is gone by the time of its first call does nothing. */
  lemma AbsentNodeGetsNothing(w: World, name: string, n: Node, answers: Answers)
    requires name !in w.nodes
    ensures Calls(w, name, n, GetNode, answers) == (w, if answers == [] then GetNode else Failed)
  {
    assert answers != [] ==> Calls(w, name, n, Failed, answers[1..]) == (w, Failed);
  }

  /** How many calls a run takes at least from `pc` on, unless it fails. */
  function CallsLeft(w: World, name: string, pc: Pc): nat
    requires name in w.nodes
  {
    var password := if PasswordSecret(name) in w.secrets then 0 else 1;
    var server := if Serves(w, name) then 0 else 1;
    match pc
    case GetNode => CallsNeeded(w, name)
    case PushFinalizer(_) => 6 + password + server
    case ReadPassword => 5 + password + server
    case WritePassword => 5 + server
    case ReadUserData => 4 + server
    case Lookup => 3 + server
    case CreateServer => 3
    case BindServer(_, _) => 2
    case ClearFailed => 1
    case _ => 0
  }

  predicate OnTheWay(w: World, name: string, pc: Pc) {
    && name in w.nodes && !w.nodes[name].deleting
    && (BeforeCreate(pc) || pc.BindServer? || pc.ClearFailed? || Ended(pc))
  }

  lemma OneCallLess(w: World, name: string, n: Node, pc: Pc, answered: bool)
    requires OnTheWay(w, name, pc) && !Ended(pc)
    ensures var (v, next) := StepAnswered(w, name, n, pc, answered);
      OnTheWay(v, name, next) && (next.Failed? || CallsLeft(v, name, next) + 1 >= CallsLeft(w, name, pc))
  {
    if answered && pc.Lookup? {
      var found := FindServer(w, name);
      assert forall id :: Named(w, id, name) ==> id in w.servers && w.servers[id].name == name;
      if found.Some? { assert Named(w, found.value, name); }
    }
  }

  /** However its calls are answered, a run is not done with fewer. */
  lemma {:induction false} NoRunIsFaster(w: World, name: string, n: Node, pc: Pc, answers: Answers)
    requires OnTheWay(w, name, pc) && |answers| < CallsLeft(w, name, pc)
    ensures Calls(w, name, n, pc, answers).1 != Done
    decreases answers
  {
    if answers != [] && !Ended(pc) {
      OneCallLess(w, name, n, pc, answers[0]);
      var (v, next) := StepAnswered(w, name, n, pc, answers[0]);
      if !next.Failed? { NoRunIsFaster(v, name, n, next, answers[1..]); }
    }
  }

  /** A provision run on an unbound node can write if and only if the node is a candidate. */
  lemma WritesExactly(w: World, name: string, c: Catalog)
    requires name in w.nodes && w.nodes[name].providerId.None? && (Serves(w, name) || w.nextServer <= I64_MAX)
    ensures Candidate(w.nodes[name]) <==> exists answers :: Run(w, name, c, answers).0 != w
  {
    var n := w.nodes[name];
    if Candidate(n) {
      var answers: Answers := seq(9, i => true);
      AllAnswered(answers);
      if OnOffer(n.labels, c) {
        var id := AnsweredRunProvisions(w, name, c, answers);
        assert LABEL_SERVER_ID in ProvisionedWith(w, name, id).nodes[name].labels;
      } else {
        InvalidIsMarked(w, name, c, answers);
        assert ANNOTATION_PROVISION_FAILED in Run(w, name, c, answers).0.nodes[name].annotations;
      }
      assert Run(w, name, c, answers).0 != w;
    } else {
      forall answers ensures Run(w, name, c, answers).0 == w { OthersArePassedOver(w, name, c, answers); }
    }
  }
}
