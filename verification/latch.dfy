/** The failure latch of node-provision: a configuration found invalid is remembered on the node by
    its hash, and not tried again while the hash stays the same. That it is sound is proved of the
    interleaved system, that it closes of runs that follow each other.
 */
module Latch {
  import opened Wrappers
  import opened Cluster
  import opened Lifecycle
  import opened Answering
  import opened Interleaved
  import Teardown

  const CONFIG_LABELS := {LABEL_SIZE, LABEL_REGION, LABEL_IMAGE}

  /** None of the three label values contains the hash's separator. Kubernetes label values never do. */
  predicate NoBars(labels: map<string, string>) {
    forall k :: k in CONFIG_LABELS ==> '|' !in LabelOr(labels, k)
  }

  /** The provider offers nothing under an empty slug. */
  predicate NoEmptySlugs(c: Catalog) {
    "" !in c.sizes && "" !in c.regions && "" !in c.images
  }

  lemma {:induction false} SplitAtBar(a: string, x: string, b: string, y: string)
    requires a + "|" + x == b + "|" + y && '|' !in a && '|' !in b
    ensures a == b && x == y
    decreases a
  {
    var left, right := a + "|" + x, b + "|" + y;
    assert left[0] == (if a == "" then '|' else a[0]) && right[0] == (if b == "" then '|' else b[0]);
    assert a == "" <==> b == "";
    if a == "" {
      assert left[1..] == x && right[1..] == y;
    } else {
      assert left[1..] == a[1..] + "|" + x && right[1..] == b[1..] + "|" + y;
      SplitAtBar(a[1..], x, b[1..], y);
      assert a == [a[0]] + a[1..] && b == [b[0]] + b[1..];
    }
  }

  /** The hash tells configurations apart, up to absent labels standing for empty ones. */
  lemma HashExact(a: map<string, string>, b: map<string, string>)
    requires NoBars(a) && NoBars(b)
    ensures ConfigHash(a) == ConfigHash(b) <==> forall k :: k in CONFIG_LABELS ==> LabelOr(a, k) == LabelOr(b, k)
  {
    if ConfigHash(a) == ConfigHash(b) {
      var a1, b1 := LabelOr(a, LABEL_REGION) + "|" + LabelOr(a, LABEL_IMAGE),
          LabelOr(b, LABEL_REGION) + "|" + LabelOr(b, LABEL_IMAGE);
      assert ConfigHash(a) == LabelOr(a, LABEL_SIZE) + "|" + a1;
      assert ConfigHash(b) == LabelOr(b, LABEL_SIZE) + "|" + b1;
      SplitAtBar(LabelOr(a, LABEL_SIZE), a1, LabelOr(b, LABEL_SIZE), b1);
      SplitAtBar(LabelOr(a, LABEL_REGION), LabelOr(a, LABEL_IMAGE), LabelOr(b, LABEL_REGION), LabelOr(b, LABEL_IMAGE));
    }
  }

  /** Equal hashes get the same verdict. */
  lemma SameHashSameVerdict(a: map<string, string>, b: map<string, string>, c: Catalog)
    requires NoBars(a) && NoBars(b) && NoEmptySlugs(c) && ConfigHash(a) == ConfigHash(b)
    ensures Valid(a, c) <==> Valid(b, c)
  {
    HashExact(a, b);
    assert LabelOr(a, LABEL_SIZE) == LabelOr(b, LABEL_SIZE);
    assert LabelOr(a, LABEL_REGION) == LabelOr(b, LABEL_REGION);
    assert LabelOr(a, LABEL_IMAGE) == LabelOr(b, LABEL_IMAGE);
  }

  /** Equal hashes never get different verdicts. */
  ghost predicate HashDecides(c: Catalog) {
    forall a, b :: NoBars(a) && NoBars(b) && ConfigHash(a) == ConfigHash(b) ==> (Valid(a, c) <==> Valid(b, c))
  }

  predicate Offers(slugs: set<string>) {
    exists s :: s in slugs && '|' !in s
  }

  /** Some configuration a node's labels can name is on offer. */
  predicate OffersEach(c: Catalog) {
    Offers(c.sizes) && Offers(c.regions) && Offers(c.images)
  }

  /** The catalogs whose verdicts the hash decides. */
  predicate Decidable(c: Catalog) {
    NoEmptySlugs(c) || !OffersEach(c)
  }

  /** An empty slug on offer makes the hash take a configuration that lacks the label for one that has it empty. */
  lemma EmptySlugConfuses(c: Catalog) returns (good: map<string, string>, bad: map<string, string>)
    requires !Decidable(c)
    ensures NoBars(good) && NoBars(bad) && ConfigHash(good) == ConfigHash(bad) && Valid(good, c) && !Valid(bad, c)
    ensures LABEL_SERVER_ID !in good && LABEL_SERVER_ID !in bad
    ensures LABEL_SIZE in bad || LABEL_REGION in bad || LABEL_IMAGE in bad
  {
    var size :| size in c.sizes && '|' !in size;
    var region :| region in c.regions && '|' !in region;
    var image :| image in c.images && '|' !in image;
    if "" in c.sizes {
      good := map[LABEL_SIZE := "", LABEL_REGION := region, LABEL_IMAGE := image];
      bad := map[LABEL_REGION := region, LABEL_IMAGE := image];
    } else if "" in c.regions {
      good := map[LABEL_SIZE := size, LABEL_REGION := "", LABEL_IMAGE := image];
      bad := map[LABEL_SIZE := size, LABEL_IMAGE := image];
    } else {
      good := map[LABEL_SIZE := size, LABEL_REGION := region, LABEL_IMAGE := ""];
      bad := map[LABEL_SIZE := size, LABEL_REGION := region];
    }
  }

  lemma OnlyOffersAreValid(labels: map<string, string>, c: Catalog)
    requires NoBars(labels) && Valid(labels, c)
    ensures OffersEach(c)
  {
    assert LabelOr(labels, LABEL_SIZE) in c.sizes;
    assert LabelOr(labels, LABEL_REGION) in c.regions;
    assert LabelOr(labels, LABEL_IMAGE) in c.images;
  }

  /** The hash decides the verdict exactly when the catalog has no empty slug, or offers nothing at all. */
  lemma HashDecidesExact(c: Catalog)
    ensures HashDecides(c) <==> Decidable(c)
  {
    if Decidable(c) {
      forall a, b | NoBars(a) && NoBars(b) && ConfigHash(a) == ConfigHash(b) ensures Valid(a, c) <==> Valid(b, c) {
        if NoEmptySlugs(c) {
          SameHashSameVerdict(a, b, c);
        } else {
          if Valid(a, c) { OnlyOffersAreValid(a, c); }
          if Valid(b, c) { OnlyOffersAreValid(b, c); }
        }
      }
    } else {
      var good, bad := EmptySlugConfuses(c);
    }
  }

  // ---------- soundness, interleaved ----------

  /** The catalog does not change, labels have no separators, and others leave the mark alone. */
  ghost predicate LeavesLatchAlone(s: System, a: Action, c: Catalog) {
    match a
    case Start(_, _, version, catalog) => catalog == c && NoBars(version.node.labels)
    case NewNode(_, node) => ANNOTATION_PROVISION_FAILED !in node.annotations
    case EditNode(name, node) =>
      ANNOTATION_PROVISION_FAILED in node.annotations ==>
        && name in s.w.nodes && ANNOTATION_PROVISION_FAILED in s.w.nodes[name].annotations
        && node.annotations[ANNOTATION_PROVISION_FAILED] == s.w.nodes[name].annotations[ANNOTATION_PROVISION_FAILED]
    case _ => true
  }

  ghost predicate LatchRuns(s: System, actions: seq<Action>, c: Catalog)
    decreases actions
  {
    actions == []
    || (Possible(s, actions[0]) && LeavesLatchAlone(s, actions[0], c)
        && LatchRuns(Apply(s, actions[0]), actions[1..], c))
  }

  ghost predicate Unmarked(s: System) {
    s.runs == map[] && forall name :: name in s.w.nodes ==> ANNOTATION_PROVISION_FAILED !in s.w.nodes[name].annotations
  }

  /** The hash of some configuration that fails validation. */
  ghost predicate FailingHash(hash: string, c: Catalog) {
    exists labels :: NoBars(labels) && !Valid(labels, c) && ConfigHash(labels) == hash
  }

  ghost predicate MarkOk(n: Node, c: Catalog) {
    ANNOTATION_PROVISION_FAILED in n.annotations ==> FailingHash(n.annotations[ANNOTATION_PROVISION_FAILED], c)
  }

  /** Every mark, and every one about to be made, is that of a failing configuration. */
  ghost predicate LatchInv(s: System, c: Catalog) {
    && (forall name :: name in s.w.nodes ==> MarkOk(s.w.nodes[name], c))
    && (forall i :: i in s.runs && s.runs[i].pc.MarkFailed? ==> FailingHash(s.runs[i].pc.hash, c))
  }

  lemma PatchKeepsMarks(w: World, name: string, p: NodePatch, c: Catalog)
    requires forall x :: x in w.nodes ==> MarkOk(w.nodes[x], c)
    requires p.annotations == map[] || p == FailedPatch(None) ||
        (exists h :: p == FailedPatch(Some(h)) && FailingHash(h, c))
    ensures var v := OrElse(PatchNode(w, name, p), w); forall x :: x in v.nodes ==> MarkOk(v.nodes[x], c)
  {
  }

  /** The patch a call sends, if it sends one. */
  function PatchOf(n: Node, pc: Pc): Option<NodePatch> {
    match pc
    case MarkFailed(hash) => Some(FailedPatch(Some(hash)))
    case PushFinalizer(finalizers) => Some(FinalizerPatch(finalizers))
    case BindServer(id, _) => Some(BindPatch(id))
    case ClearFailed => Some(FailedPatch(None))
    case DropFinalizer => Some(FinalizerPatch(WithoutFinalizer(n.finalizers)))
    case EnsureFinalizer => Some(FinalizerPatch(n.finalizers + [FINALIZER]))
    case AdoptBind(id) => Some(BindPatch(id))
    case PatchLabels(s) => Some(SyncPatch(n, s))
    case PatchAddresses(s) => Some(AddressPatch(s))
    case _ => None
  }

  lemma StepIsPatch(w: World, name: string, n: Node, pc: Pc)
    ensures var v := Step(w, name, n, pc).0;
      if PatchOf(n, pc).Some? then v == OrElse(PatchNode(w, name, PatchOf(n, pc).value), w)
      else v.nodes == w.nodes || (pc.GoneNode? && DeleteNode(w, name) == Some(v))
  {
  }

  lemma OnlyMarkFailedMarks(w: World, name: string, n: Node, pc: Pc, answered: bool)
    ensures !StepAnswered(w, name, n, pc, answered).1.MarkFailed?
  {
  }

  lemma StepKeepsMarks(w: World, name: string, n: Node, pc: Pc, answered: bool, c: Catalog)
    requires forall x :: x in w.nodes ==> MarkOk(w.nodes[x], c)
    requires pc.MarkFailed? ==> FailingHash(pc.hash, c)
    ensures var v := StepAnswered(w, name, n, pc, answered).0; forall x :: x in v.nodes ==> MarkOk(v.nodes[x], c)
  {
    if answered {
      StepIsPatch(w, name, n, pc);
      if PatchOf(n, pc).Some? {
        PatchKeepsMarks(w, name, PatchOf(n, pc).value, c);
      }
    }
  }

  lemma CallKeepsLatch(s: System, id: int, answered: bool, c: Catalog)
    requires LatchInv(s, c) && Possible(s, Call(id, answered))
    ensures LatchInv(Apply(s, Call(id, answered)), c)
  {
    var r := s.runs[id];
    StepKeepsMarks(s.w, r.name, r.node, r.pc, answered, c);
    OnlyMarkFailedMarks(s.w, r.name, r.node, r.pc, answered);
  }

  lemma StartKeepsLatch(s: System, a: Action, c: Catalog)
    requires LatchInv(s, c) && Possible(s, a) && LeavesLatchAlone(s, a, c) && a.Start?
    ensures LatchInv(Apply(s, a), c)
  {
    var labels := a.version.node.labels;
    var pc := Begin(a.kind, a.version.node, a.catalog);
    assert pc.MarkFailed? ==> NoBars(labels) && !Valid(labels, c) && ConfigHash(labels) == pc.hash;
  }

  lemma ActionKeepsLatch(s: System, a: Action, c: Catalog)
    requires LatchInv(s, c) && Possible(s, a) && LeavesLatchAlone(s, a, c)
    ensures LatchInv(Apply(s, a), c)
  {
    if a.Start? {
      StartKeepsLatch(s, a, c);
    } else if a.Call? {
      CallKeepsLatch(s, a.id, a.answered, c);
    }
  }

  lemma {:induction false} LatchAlwaysOk(s: System, actions: seq<Action>, c: Catalog)
    requires LatchInv(s, c) && LatchRuns(s, actions, c)
    ensures LatchInv(Exec(s, actions), c)
    decreases actions
  {
    if actions != [] {
      ActionKeepsLatch(s, actions[0], c);
      LatchAlwaysOk(Apply(s, actions[0]), actions[1..], c);
    }
  }

  /** Whenever the latch is closed on a configuration, it is one that fails validation. */
  ghost predicate LatchTells(s: System, c: Catalog) {
    forall name :: name in s.w.nodes && NoBars(s.w.nodes[name].labels) && Latched(s.w.nodes[name]) ==>
      !Valid(s.w.nodes[name].labels, c)
  }

  /** The latch is sound: over every run of the system with an unchanged catalog, calls of any number of runs and
      edits alternating in any order and reads as stale as may be, whenever the latch makes provisioning pass a
      node over, its configuration would fail validation again. */
  lemma LatchIsSound(s: System, actions: seq<Action>, c: Catalog)
    requires Decidable(c) && Unmarked(s) && LatchRuns(s, actions, c)
    ensures LatchTells(Exec(s, actions), c)
  {
    LatchAlwaysOk(s, actions, c);
    HashDecidesExact(c);
    var t := Exec(s, actions);
    forall name | name in t.w.nodes && NoBars(t.w.nodes[name].labels) && Latched(t.w.nodes[name])
      ensures !Valid(t.w.nodes[name].labels, c)
    {
      var n := t.w.nodes[name];
      var labels :| NoBars(labels) && !Valid(labels, c) && ConfigHash(labels) == ConfigHash(n.labels);
    }
  }

  // ---------- and only for such catalogs ----------

  function Unprovisioned(labels: map<string, string>): Node {
    Node(0, labels, map[], [], false, None, [Taint(UNINITIALIZED_TAINT, None, "NoSchedule")], [])
  }

  function Marked(labels: map<string, string>, hash: string): Node {
    Unprovisioned(labels).(annotations := map[ANNOTATION_PROVISION_FAILED := hash])
  }

  function Alone(n: Node): System {
    System(World(map["n" := n], {}, map[], 0, 1), {Version("n", n)}, map[])
  }

  /** One provision run marks the node. */
  lemma MarkingRun(labels: map<string, string>, c: Catalog) returns (t: System, u: System)
    requires NoBars(labels) && !Valid(labels, c) && LABEL_SERVER_ID !in labels
    requires LABEL_SIZE in labels || LABEL_REGION in labels || LABEL_IMAGE in labels
    ensures var s, n := Alone(Unprovisioned(labels)), Unprovisioned(labels);
      && Possible(s, Start(0, Provision, Version("n", n), c)) && t == Apply(s, Start(0, Provision, Version("n", n), c))
      && Possible(t, Call(0, true)) && u == Apply(t, Call(0, true))
      && u.w.nodes == map["n" := Marked(labels, ConfigHash(labels))]
  {
    var n := Unprovisioned(labels);
    t := Apply(Alone(n), Start(0, Provision, Version("n", n), c));
    assert t.runs[0] == Run(Provision, "n", n, MarkFailed(ConfigHash(labels)));
    u := Apply(t, Call(0, true));
    var p := FailedPatch(Some(ConfigHash(labels)));
    assert MergeMap(labels, map[]) == labels;
    assert MergeMap(map[], p.annotations) == map[ANNOTATION_PROVISION_FAILED := ConfigHash(labels)];
    assert ApplyPatch(n, p) == Marked(labels, ConfigHash(labels));
  }

  /** With an empty slug on offer, giving a marked node the label it lacked, empty, leaves it latched although it
      would now be valid: a run of the system that ends so. */
  lemma LatchCanMislead(c: Catalog) returns (s: System, actions: seq<Action>)
    requires !Decidable(c)
    ensures Initial(s) && Unmarked(s) && LatchRuns(s, actions, c) && !LatchTells(Exec(s, actions), c)
  {
    var good, bad := EmptySlugConfuses(c);
    var n, m := Unprovisioned(bad), Marked(good, ConfigHash(bad));
    s := Alone(n);
    LatchStart(n);
    var t, u := MarkingRun(bad, c);
    var a, b, e := Start(0, Provision, Version("n", n), c), Call(0, true), EditNode("n", m);
    EditOfMark(u, bad, good, c);
    var v := Apply(u, e);
    actions := [a] + ([b] + ([e] + []));
    UnrollLatch(u, e, [], c);
    UnrollLatch(t, b, [e] + [], c);
    UnrollLatch(s, a, [b] + ([e] + []), c);
    assert v.w.nodes["n"] == m && Latched(m);
  }

  lemma LatchStart(n: Node)
    requires n == Unprovisioned(n.labels) && LABEL_SERVER_ID !in n.labels
    ensures Initial(Alone(n)) && Unmarked(Alone(n))
  {
    assert n.taints[0] in n.taints;
    var w := Alone(n).w;
    forall v ensures v in Current(w) <==> v == Version("n", n) {
      assert Version("n", w.nodes["n"]) in Current(w);
    }
  }

  lemma EditOfMark(u: System, bad: map<string, string>, good: map<string, string>, c: Catalog)
    requires u.w.nodes == map["n" := Marked(bad, ConfigHash(bad))]
    requires LABEL_SERVER_ID !in good && LABEL_SERVER_ID !in bad
    ensures var e := EditNode("n", Marked(good, ConfigHash(bad)));
      Possible(u, e) && LeavesLatchAlone(u, e, c) && Apply(u, e).w.nodes == map["n" := Marked(good, ConfigHash(bad))]
  {
  }

  lemma UnrollLatch(s: System, a: Action, rest: seq<Action>, c: Catalog)
    requires Possible(s, a) && LeavesLatchAlone(s, a, c) && LatchRuns(Apply(s, a), rest, c)
    ensures LatchRuns(s, [a] + rest, c) && Exec(s, [a] + rest) == Exec(Apply(s, a), rest)
  {
    assert ([a] + rest)[1..] == rest;
  }

  /** Exactly when the latch is sound over every run. */
  lemma LatchSoundExact(c: Catalog)
    ensures Decidable(c) <==>
      forall s, actions :: Initial(s) && Unmarked(s) && LatchRuns(s, actions, c) ==> LatchTells(Exec(s, actions), c)
  {
    if Decidable(c) {
      forall s, actions | Initial(s) && Unmarked(s) && LatchRuns(s, actions, c)
          ensures LatchTells(Exec(s, actions), c) {
        LatchIsSound(s, actions, c);
      }
    } else {
      var s, actions := LatchCanMislead(c);
    }
  }

  // ---------- closing and opening ----------

  /** The same configuration and the same mark. */
  predicate SameLatch(n: Node, m: Node) {
    && (forall k :: k in CONFIG_LABELS ==>
         (k in m.labels <==> k in n.labels) && (k in n.labels ==> m.labels[k] == n.labels[k]))
    && (ANNOTATION_PROVISION_FAILED in m.annotations <==> ANNOTATION_PROVISION_FAILED in n.annotations)
    && (ANNOTATION_PROVISION_FAILED in n.annotations ==>
         m.annotations[ANNOTATION_PROVISION_FAILED] == n.annotations[ANNOTATION_PROVISION_FAILED])
  }

  lemma StaysLatched(n: Node, m: Node, c: Catalog)
    requires Latched(n) && SameLatch(n, m)
    ensures Latched(m) && BeginProvision(m, c) == Done
  {
    assert forall k :: k in CONFIG_LABELS ==> LabelOr(m.labels, k) == LabelOr(n.labels, k);
  }

  /** A call of a run that does not provision leaves configuration and mark of its node alone. */
  lemma OtherStepKeepsLatch(w: World, name: string, n: Node, pc: Pc, answered: bool)
    requires !ProvisionPc(pc) && (name in w.nodes ==> SameLatch(n, w.nodes[name]))
    ensures var (v, next) := StepAnswered(w, name, n, pc, answered);
      && (name in v.nodes ==> SameLatch(n, v.nodes[name])) && v.nextServer == w.nextServer
  {
    if answered {
      ServerEffect(w, name, n, pc);
      StepIsPatch(w, name, n, pc);
      if PatchOf(n, pc).Some? && name in w.nodes {
        OtherPatchKeepsLatch(n, w.nodes[name], pc);
      }
    }
  }

  lemma OtherPatchKeepsLatch(n: Node, m: Node, pc: Pc)
    requires !ProvisionPc(pc) && PatchOf(n, pc).Some? && SameLatch(n, m)
    ensures SameLatch(n, ApplyPatch(m, PatchOf(n, pc).value))
  {
    if pc.PatchLabels? {
      assert forall k :: k in CONFIG_LABELS ==> k !in DesiredLabels(pc.server);
    }
    assert LABEL_SERVER_ID !in CONFIG_LABELS;
  }

  lemma StaysOther(w: World, name: string, n: Node, pc: Pc, answered: bool)
    requires !ProvisionPc(pc)
    ensures !ProvisionPc(StepAnswered(w, name, n, pc, answered).1)
  {
  }

  lemma {:induction false} OtherCallsKeepLatch(w: World, name: string, n: Node, pc: Pc, answers: Answers)
    requires !ProvisionPc(pc) && (name in w.nodes ==> SameLatch(n, w.nodes[name]))
    ensures var v := Calls(w, name, n, pc, answers).0;
      (name in v.nodes ==> SameLatch(n, v.nodes[name])) && v.nextServer == w.nextServer
    decreases answers
  {
    if !Ended(pc) && answers != [] {
      OtherStepKeepsLatch(w, name, n, pc, answers[0]);
      StaysOther(w, name, n, pc, answers[0]);
      var (v, next) := StepAnswered(w, name, n, pc, answers[0]);
      OtherCallsKeepLatch(v, name, n, next, answers[1..]);
    }
  }

  lemma {:induction false} ClosedStays(w: World, name: string, runs: seq<Teardown.Attempt>)
    requires name in w.nodes ==> Latched(w.nodes[name])
    ensures var v := Teardown.Attempts(w, name, runs);
      (name in v.nodes ==> Latched(v.nodes[name])) && v.nextServer == w.nextServer
    decreases runs
  {
    if runs != [] {
      var v := Teardown.Once(w, name, runs[0]);
      if name in w.nodes {
        var n, run := w.nodes[name], runs[0];
        OtherCallsKeepLatch(w, name, n, Begin(run.kind, n, run.catalog), run.answers);
        if name in v.nodes { StaysLatched(n, v.nodes[name], run.catalog); }
      }
      ClosedStays(v, name, runs[1..]);
    }
  }

  /** A run that finds a configuration invalid closes the latch: over every history of runs of all four
      controllers, on whatever catalogs and however cut short, no run tries it again and none creates a server. */
  lemma LatchCloses(w: World, name: string, c: Catalog, runs: seq<Teardown.Attempt>, d: Catalog)
    requires name in w.nodes && BeginProvision(w.nodes[name], c).MarkFailed?
    ensures var marked := Step(w, name, w.nodes[name], BeginProvision(w.nodes[name], c)).0;
      var v := Teardown.Attempts(marked, name, runs);
      && v.nextServer == w.nextServer
      && (name in v.nodes ==> Latched(v.nodes[name]) && BeginProvision(v.nodes[name], d) == Done)
  {
    var n := w.nodes[name];
    var p := FailedPatch(Some(ConfigHash(n.labels)));
    assert MergeMap(n.labels, map[]) == n.labels;
    assert ANNOTATION_PROVISION_FAILED in p.annotations;
    var marked := Step(w, name, n, BeginProvision(n, c)).0;
    ClosedStays(marked, name, runs);
    var v := Teardown.Attempts(marked, name, runs);
    if name in v.nodes { StaysLatched(v.nodes[name], v.nodes[name], d); }
  }

  /** The latch opens: giving any of the three labels another, non-empty value makes provisioning look
      at the node again. */
  lemma LatchOpens(n: Node, key: string, value: string, c: Catalog)
    requires Latched(n) && key in CONFIG_LABELS && value != LabelOr(n.labels, key) && value != ""
    requires NoBars(n.labels) && '|' !in value
    ensures var m := n.(labels := n.labels[key := value]);
      && !Latched(m)
      && (LABEL_SERVER_ID !in n.labels && !n.deleting ==>
            BeginProvision(m, c) == if Valid(m.labels, c) then GetNode else MarkFailed(ConfigHash(m.labels)))
  {
    var m := n.(labels := n.labels[key := value]);
    assert forall k :: k in CONFIG_LABELS ==> LabelOr(m.labels, k) == if k == key then value else LabelOr(n.labels, k);
    HashExact(n.labels, m.labels);
    assert LABEL_SERVER_ID !in CONFIG_LABELS;
  }
}
