/** Scale-up, scale-down and group lookup of the autoscaler provider. RPCs run one after the other;
    each may be cut short at any API call or meet an error there.
 */
module Autoscaler {
  import opened Wrappers
  import opened Text
  import opened Cluster
  import opened Lifecycle
  import opened Lists
  import Interleaved

  /** User metadata for new nodes: label entries in key order, annotations, taints. */
  datatype Template = Template(labels: seq<(string, string)>, annotations: map<string, string>, taints: seq<Taint>)

  datatype Group = Group(
    name: Option<string>,
    minSize: int,
    maxSize: int,
    size: string,
    region: string,
    image: string,
    namePrefix: string,
    hasUserData: bool,
    template: Template)

  datatype Attrs = Attrs(labels: map<string, string>, annotations: map<string, string>, taints: seq<Taint>,
      dropped: seq<string>)

  const LABEL_HOSTNAME := "kubernetes.io/hostname"
  const LABEL_ARCH := "kubernetes.io/arch"
  const LABEL_OS := "kubernetes.io/os"

  const RESERVED_LABELS := {
    LABEL_ASG, LABEL_SERVER_ID, LABEL_SIZE, LABEL_REGION, LABEL_IMAGE, LABEL_HOSTNAME, LABEL_ARCH, LABEL_OS,
    LABEL_INSTANCE_TYPE, LABEL_CLOUD_PROVIDER, LABEL_TOPOLOGY_REGION }

  const RESERVED_TAINT_KEYS := {UNINITIALIZED_TAINT}

  // ---------- labels and taints of a new node ----------

  function BaseLabels(asgName: string, g: Group): map<string, string> {
    map[LABEL_ASG := asgName, LABEL_INSTANCE_TYPE := g.size, LABEL_TOPOLOGY_REGION := g.region,
        LABEL_ARCH := "amd64", LABEL_OS := "linux", LABEL_CLOUD_PROVIDER := PROVIDER_NAME,
        LABEL_SIZE := g.size, LABEL_REGION := g.region, LABEL_IMAGE := g.image]
  }

  const UNINITIALIZED := Taint(UNINITIALIZED_TAINT, Some("true"), "NoSchedule")

  /** The user's entries laid over the base, reserved keys left out. */
  function Overlaid(base: map<string, string>, entries: seq<(string, string)>): map<string, string> {
    if entries == [] then base
    else
      var (before, (k, v)) := (Overlaid(base, entries[..|entries| - 1]), entries[|entries| - 1]);
      if k in RESERVED_LABELS then before else before[k := v]
  }

  function DroppedLabels(entries: seq<(string, string)>): seq<string> {
    if entries == [] then []
    else
      var (before, k) := (DroppedLabels(entries[..|entries| - 1]), entries[|entries| - 1].0);
      if k in RESERVED_LABELS then before + ["label:" + k] else before
  }

  function KeptTaints(taints: seq<Taint>): seq<Taint> {
    if taints == [] then []
    else
      var (before, t) := (KeptTaints(taints[..|taints| - 1]), taints[|taints| - 1]);
      if t.key in RESERVED_TAINT_KEYS then before else before + [t]
  }

  function DroppedTaints(taints: seq<Taint>): seq<string> {
    if taints == [] then []
    else
      var (before, t) := (DroppedTaints(taints[..|taints| - 1]), taints[|taints| - 1]);
      if t.key in RESERVED_TAINT_KEYS then before + ["taint:" + t.key] else before
  }

  function AttrsOf(asgName: string, g: Group): Attrs {
    Attrs(Overlaid(BaseLabels(asgName, g), g.template.labels),
          g.template.annotations,
          [UNINITIALIZED] + KeptTaints(g.template.taints),
          DroppedLabels(g.template.labels) + DroppedTaints(g.template.taints))
  }

  /** `build_node_labels_and_taints` */
  method BuildNodeLabelsAndTaints(asgName: string, g: Group) returns (attrs: Attrs)
    ensures attrs == AttrsOf(asgName, g)
  {
    var labels := BaseLabels(asgName, g);
    var taints := [UNINITIALIZED];
    var dropped: seq<string> := [];
    var entries := g.template.labels;
    for i := 0 to |entries|
      invariant labels == Overlaid(BaseLabels(asgName, g), entries[..i])
      invariant dropped == DroppedLabels(entries[..i])
    {
      var (k, v) := entries[i];
      assert entries[..i + 1][..i] == entries[..i];
      if k in RESERVED_LABELS {
        dropped := dropped + ["label:" + k];
        continue;
      }
      labels := labels[k := v];
    }
    assert entries[..|entries|] == entries;
    var userTaints := g.template.taints;
    for i := 0 to |userTaints|
      invariant taints == [UNINITIALIZED] + KeptTaints(userTaints[..i])
      invariant dropped == DroppedLabels(entries) + DroppedTaints(userTaints[..i])
    {
      var t := userTaints[i];
      assert userTaints[..i + 1][..i] == userTaints[..i];
      if t.key in RESERVED_TAINT_KEYS {
        dropped := dropped + ["taint:" + t.key];
        continue;
      }
      taints := taints + [t];
    }
    assert userTaints[..|userTaints|] == userTaints;
    attrs := Attrs(labels, g.template.annotations, taints, dropped);
  }

  predicate SameAt(a: map<string, string>, b: map<string, string>, k: string) {
    (k in a <==> k in b) && (k in a ==> a[k] == b[k])
  }

  /** A reserved key, and a key the template does not mention, keeps the controller's value. */
  lemma {:induction false} ControllerKeysWin(base: map<string, string>, entries: seq<(string, string)>, k: string)
    requires k in RESERVED_LABELS || forall i :: 0 <= i < |entries| ==> entries[i].0 != k
    ensures SameAt(Overlaid(base, entries), base, k)
  {
    if entries != [] {
      ControllerKeysWin(base, entries[..|entries| - 1], k);
    }
  }

  /** Any other key gets the template's last word on it. */
  lemma {:induction false} UserLabelsApply(base: map<string, string>, entries: seq<(string, string)>, i: nat)
    requires i < |entries| && entries[i].0 !in RESERVED_LABELS
    requires forall j :: i < j < |entries| ==> entries[j].0 != entries[i].0
    ensures entries[i].0 in Overlaid(base, entries) && Overlaid(base, entries)[entries[i].0] == entries[i].1
  {
    if i < |entries| - 1 {
      UserLabelsApply(base, entries[..|entries| - 1], i);
    }
  }

  predicate ReservedTaint(t: Taint) { t.key in RESERVED_TAINT_KEYS }

  lemma KeptTaintsStep(front: seq<Taint>, t: Taint)
    ensures KeptTaints(front + [t]) == if ReservedTaint(t) then KeptTaints(front) else KeptTaints(front) + [t]
  {
    assert (front + [t])[..|front|] == front;
  }

  lemma KeptTaintsSelected(front: seq<Taint>, t: Taint, before: seq<nat>) returns (at: seq<nat>)
    requires Selected(front, KeptTaints(front), ReservedTaint, before)
    ensures Selected(front + [t], KeptTaints(front + [t]), ReservedTaint, at)
  {
    KeptTaintsStep(front, t);
    at := SelectedPlusOne(front, t, KeptTaints(front), ReservedTaint, before);
  }

  /** The user's taints are kept in order, but for reserved ones. */
  lemma {:induction false} UserTaintsApply(taints: seq<Taint>) returns (at: seq<nat>)
    ensures Selected(taints, KeptTaints(taints), ReservedTaint, at)
  {
    if taints == [] {
      at := [];
    } else {
      var front, t := taints[..|taints| - 1], taints[|taints| - 1];
      var before := UserTaintsApply(front);
      assert taints == front + [t];
      at := KeptTaintsSelected(front, t, before);
    }
  }

  lemma {:induction false} DroppedLabelsExact(entries: seq<(string, string)>, k: string)
    ensures "label:" + k in DroppedLabels(entries) <==>
        k in RESERVED_LABELS && exists i :: 0 <= i < |entries| && entries[i].0 == k
  {
    if entries != [] {
      var last := |entries| - 1;
      DroppedLabelsExact(entries[..last], k);
      assert forall i :: 0 <= i < last ==> entries[..last][i] == entries[i];
      SamePrefix(entries[last].0, k);
    }
  }

  lemma SamePrefix(a: string, b: string)
    ensures "label:" + a == "label:" + b <==> a == b
    ensures "taint:" + a == "taint:" + b <==> a == b
    ensures "label:" + a != "taint:" + b
  {
    assert ("label:" + a)[6..] == a && ("label:" + b)[6..] == b;
    assert ("taint:" + a)[6..] == a && ("taint:" + b)[6..] == b;
    assert ("label:" + a)[0] == 'l' && ("taint:" + b)[0] == 't';
  }

  lemma {:induction false} DroppedTaintsExact(taints: seq<Taint>, k: string)
    ensures "label:" + k !in DroppedTaints(taints)
    ensures "taint:" + k in DroppedTaints(taints) <==>
        k == UNINITIALIZED_TAINT && exists i :: 0 <= i < |taints| && taints[i].key == k
  {
    if taints != [] {
      var last := |taints| - 1;
      DroppedTaintsExact(taints[..last], k);
      assert forall i :: 0 <= i < last ==> taints[..last][i] == taints[i];
      SamePrefix(taints[last].key, k);
      SamePrefix(k, taints[last].key);
    }
  }

  lemma {:induction false} DroppedLabelsSayLabel(entries: seq<(string, string)>, k: string)
    ensures "taint:" + k !in DroppedLabels(entries)
  {
    if entries != [] {
      DroppedLabelsSayLabel(entries[..|entries| - 1], k);
      SamePrefix(entries[|entries| - 1].0, k);
    }
  }

  /** A label is reported as dropped exactly when the template sets it and it is reserved, a taint exactly when the
      template has it and it is the uninitialized one. */
  lemma DroppedIsReported(asgName: string, g: Group, k: string)
    ensures "label:" + k in AttrsOf(asgName, g).dropped
      <==> k in RESERVED_LABELS && exists i :: 0 <= i < |g.template.labels| && g.template.labels[i].0 == k
    ensures "taint:" + k in AttrsOf(asgName, g).dropped
      <==> k == UNINITIALIZED_TAINT && exists i :: 0 <= i < |g.template.taints| && g.template.taints[i].key == k
  {
    DroppedLabelsExact(g.template.labels, k);
    DroppedTaintsExact(g.template.taints, k);
    DroppedLabelsSayLabel(g.template.labels, k);
  }

  function NewNode(asgName: string, g: Group, name: string): Node {
    var attrs := AttrsOf(asgName, g);
    Node(0, attrs.labels[LABEL_HOSTNAME := name], attrs.annotations, [FINALIZER], false, None, attrs.taints, [])
  }

  /** Whatever the template, a node is born with our finalizer, unbound and tainted uninitialized, as
      the binding invariants ask, and with its group's configuration to provision from. */
  lemma BornReady(asgName: string, g: Group, name: string)
    ensures var n := NewNode(asgName, g, name);
      && Interleaved.Binding(n) && n.providerId.None? && HasFinalizer(n)
      && LABEL_ASG in n.labels && n.labels[LABEL_ASG] == asgName
      && LABEL_SIZE in n.labels && n.labels[LABEL_SIZE] == g.size
      && LABEL_REGION in n.labels && n.labels[LABEL_REGION] == g.region
      && LABEL_IMAGE in n.labels && n.labels[LABEL_IMAGE] == g.image
      && LABEL_HOSTNAME in n.labels && n.labels[LABEL_HOSTNAME] == name
  {
    var base, entries := BaseLabels(asgName, g), g.template.labels;
    forall k | k in RESERVED_LABELS ensures SameAt(Overlaid(base, entries), base, k) {
      ControllerKeysWin(base, entries, k);
    }
    var n := NewNode(asgName, g, name);
    assert n.taints[0] in n.taints;
    assert SameAt(Overlaid(base, entries), base, LABEL_SERVER_ID) && SameAt(Overlaid(base, entries), base, LABEL_ASG);
    assert SameAt(Overlaid(base, entries), base, LABEL_SIZE) && SameAt(Overlaid(base, entries), base, LABEL_REGION);
    assert SameAt(Overlaid(base, entries), base, LABEL_IMAGE);
  }

  // ---------- a new node, field by field ----------

  /** What the controller sets, whatever the template says. */
  function OwnLabels(asgName: string, g: Group, name: string): map<string, string> {
    map["blc.samcday.com/asg" := asgName,
        "bl.samcday.com/size" := g.size, "bl.samcday.com/region" := g.region, "bl.samcday.com/image" := g.image,
        "node.kubernetes.io/instance-type" := g.size, "topology.kubernetes.io/region" := g.region,
        "node.kubernetes.io/cloud-provider" := "binarylane",
        "kubernetes.io/arch" := "amd64", "kubernetes.io/os" := "linux", "kubernetes.io/hostname" := name]
  }

  /** The template's last word on a key. */
  predicate LastEntry(entries: seq<(string, string)>, k: string, i: int) {
    0 <= i < |entries| && entries[i].0 == k && forall j :: i < j < |entries| ==> entries[j].0 != k
  }

  lemma {:induction false} SomeLastEntry(entries: seq<(string, string)>, k: string, i: nat) returns (last: nat)
    requires i < |entries| && entries[i].0 == k
    ensures LastEntry(entries, k, last)
    decreases |entries| - i
  {
    if j :| i < j < |entries| && entries[j].0 == k {
      last := SomeLastEntry(entries, k, j);
    } else {
      last := i;
    }
  }

  lemma SameOwnKeys(asgName: string, g: Group, name: string, k: string)
    ensures k in RESERVED_LABELS <==> k == LABEL_SERVER_ID || k in OwnLabels(asgName, g, name)
    ensures k != LABEL_HOSTNAME ==> SameAt(BaseLabels(asgName, g), OwnLabels(asgName, g, name), k)
    ensures LABEL_SERVER_ID !in OwnLabels(asgName, g, name)
  {
  }

  /** A new node's labels: the controller's own; the template's last value of every other key it sets, but for the
      server id; nothing else. */
  lemma NewNodeLabels(asgName: string, g: Group, name: string, k: string)
    ensures var labels, own := NewNode(asgName, g, name).labels, OwnLabels(asgName, g, name);
      if k in own then k in labels && labels[k] == own[k]
      else if k != LABEL_SERVER_ID && exists i :: LastEntry(g.template.labels, k, i) then
        k in labels && forall i :: LastEntry(g.template.labels, k, i) ==> labels[k] == g.template.labels[i].1
      else k !in labels
  {
    var base, entries := BaseLabels(asgName, g), g.template.labels;
    SameOwnKeys(asgName, g, name, k);
    if k in RESERVED_LABELS || forall i :: 0 <= i < |entries| ==> entries[i].0 != k {
      ControllerKeysWin(base, entries, k);
    } else {
      var i :| 0 <= i < |entries| && entries[i].0 == k;
      var last := SomeLastEntry(entries, k, i);
      forall j | LastEntry(entries, k, j) ensures j == last {}
      UserLabelsApply(base, entries, last);
    }
  }

  /** The rest of a new node: annotations as in the template, first the uninitialized taint and then the template's
      others in order, our finalizer alone, not bound, no addresses. */
  lemma NewNodeRest(asgName: string, g: Group, name: string) returns (at: seq<nat>)
    ensures var n := NewNode(asgName, g, name);
      && n.annotations == g.template.annotations
      && n.taints != [] && n.taints[0] == Taint(UNINITIALIZED_TAINT, Some("true"), "NoSchedule")
      && Selected(g.template.taints, n.taints[1..], (t: Taint) => t.key == UNINITIALIZED_TAINT, at)
      && n.finalizers == ["blc.samcday.com/server-cleanup"]
      && n.providerId == None && n.addresses == [] && !n.deleting
  {
    at := UserTaintsApply(g.template.taints);
    var n := NewNode(asgName, g, name);
    assert n.taints[1..] == KeptTaints(g.template.taints);
    assert forall t :: ReservedTaint(t) <==> t.key == UNINITIALIZED_TAINT;
  }

  /** A new node carries the labels sync wants for a server of its group's size and region, so that sync
      has only the taint and the addresses left to write. */
  lemma BornAsSyncWants(asgName: string, g: Group, name: string, s: Server)
    requires s.size == g.size && s.region == g.region
    ensures var n := NewNode(asgName, g, name);
      && n.labels + DesiredLabels(s) == n.labels
      && (NeedsPatch(n, s) <==> Uninitialized(n))
  {
    var base, entries := BaseLabels(asgName, g), g.template.labels;
    forall k | k in DesiredLabels(s) ensures SameAt(Overlaid(base, entries), base, k) {
      ControllerKeysWin(base, entries, k);
    }
    var n := NewNode(asgName, g, name);
    assert LABEL_HOSTNAME !in DesiredLabels(s);
    assert forall k :: k in DesiredLabels(s) ==> k in base && base[k] == DesiredLabels(s)[k];
    assert forall k :: k in DesiredLabels(s) ==> k in n.labels && n.labels[k] == DesiredLabels(s)[k];
  }

  // ---------- names ----------

  /** `{namePrefix}{asgName}-` */
  function Prefix(g: Group): string
    requires g.name.Some?
  {
    g.namePrefix + g.name.value + "-"
  }

  function NodeName(g: Group, millis: nat, i: nat): string
    requires g.name.Some?
  {
    Prefix(g) + PrintNat(millis) + "-" + PrintNat(i)
  }

  lemma {:induction false} LastDash(a: string, x: string, b: string, y: string)
    requires a + "-" + x == b + "-" + y && '-' !in x && '-' !in y
    ensures a == b && x == y
    decreases |x|
  {
    var left, right := a + "-" + x, b + "-" + y;
    assert left[|left| - 1] == (if x == "" then '-' else x[|x| - 1]);
    assert right[|right| - 1] == (if y == "" then '-' else y[|y| - 1]);
    assert x == "" <==> y == "";
    if x == "" {
      assert left[..|left| - 1] == a && right[..|right| - 1] == b;
    } else {
      assert left[..|left| - 1] == a + "-" + x[..|x| - 1] && right[..|right| - 1] == b + "-" + y[..|y| - 1];
      LastDash(a, x[..|x| - 1], b, y[..|y| - 1]);
      assert x == x[..|x| - 1] + [x[|x| - 1]] && y == y[..|y| - 1] + [y[|y| - 1]];
    }
  }

  lemma NoDashIn(n: nat)
    ensures '-' !in PrintNat(n)
  {
    assert !IsDigit('-');
  }

  /** A name tells its time and its index; so names are distinct whenever either differs, and those of one call always
      are. */
  lemma NamesDistinct(g: Group, t: nat, i: nat, u: nat, j: nat)
    requires g.name.Some?
    requires NodeName(g, t, i) == g.namePrefix + g.name.value + "-" + PrintNat(u) + "-" + PrintNat(j)
    ensures t == u && i == j
  {
    NoDashIn(i);
    NoDashIn(j);
    LastDash(Prefix(g) + PrintNat(t), PrintNat(i), Prefix(g) + PrintNat(u), PrintNat(j));
    var p := Prefix(g);
    assert (p + PrintNat(t))[|p|..] == PrintNat(t) && (p + PrintNat(u))[|p|..] == PrintNat(u);
    PrintNatInjective(t, u);
    PrintNatInjective(i, j);
  }

  // ---------- which group a node belongs to ----------

  /** The first group of the store whose prefix the name has. */
  function GroupFor(groups: seq<Group>, name: string): Option<Group> {
    if groups == [] then None
    else if groups[0].name.Some? && StartsWith(name, Prefix(groups[0])) then Some(groups[0])
    else GroupFor(groups[1..], name)
  }

  /** The group at place `i` has a name and a prefix the node's name starts with. */
  predicate Claims(groups: seq<Group>, name: string, i: int) {
    0 <= i < |groups| && groups[i].name.Some?
    && StartsWith(name, groups[i].namePrefix + groups[i].name.value + "-")
  }

  predicate ClaimsFirst(groups: seq<Group>, name: string, i: int) {
    Claims(groups, name, i) && forall j :: 0 <= j < i ==> !Claims(groups, name, j)
  }

  /** The answer is the first group that claims the name; there is none only if no group does. */
  lemma {:induction false} GroupForExact(groups: seq<Group>, name: string)
    ensures match GroupFor(groups, name)
            case Some(g) => exists i :: ClaimsFirst(groups, name, i) && groups[i] == g
            case None => forall i :: !Claims(groups, name, i)
  {
    if groups != [] {
      var rest := groups[1..];
      GroupForExact(rest, name);
      forall i | 0 < i < |groups| ensures Claims(groups, name, i) <==> Claims(rest, name, i - 1) {}
      if Claims(groups, name, 0) {
        assert ClaimsFirst(groups, name, 0);
      } else if GroupFor(rest, name).Some? {
        var i :| ClaimsFirst(rest, name, i) && rest[i] == GroupFor(rest, name).value;
        assert Claims(groups, name, i + 1) && groups[i + 1] == rest[i];
        forall j | 0 <= j < i + 1 ensures !Claims(groups, name, j) {
          assert j > 0 ==> !Claims(rest, name, j - 1);
        }
      }
    }
  }

  /** `node_group_for_node`: the first group of the store whose prefix the name has, and none only if no group's
      prefix is the name's. */
  method NodeGroupForNode(groups: seq<Group>, name: string) returns (g: Option<Group>)
    ensures g == GroupFor(groups, name)
    ensures g.Some? ==> exists i :: ClaimsFirst(groups, name, i) && groups[i] == g.value
    ensures g.None? ==> forall i :: !Claims(groups, name, i)
  {
    GroupForExact(groups, name);
    for i := 0 to |groups|
      invariant GroupFor(groups, name) == GroupFor(groups[i..], name)
    {
      assert groups[i..][1..] == groups[i + 1..];
      if groups[i].name.None? { continue; }
      if StartsWith(name, Prefix(groups[i])) { return Some(groups[i]); }
    }
    g := None;
  }

  /** No group's prefix is a prefix of another's. */
  predicate PrefixFree(groups: seq<Group>) {
    forall a, b :: a in groups && b in groups && a != b && a.name.Some? && b.name.Some? ==>
        !StartsWith(Prefix(a), Prefix(b))
  }

  lemma PrefixesOfOne(s: string, a: string, b: string)
    requires StartsWith(s, a) && StartsWith(s, b)
    ensures StartsWith(a, b) || StartsWith(b, a)
  {
    if |a| <= |b| {
      assert b[..|a|] == s[..|b|][..|a|] == s[..|a|];
    } else {
      assert a[..|b|] == s[..|a|][..|b|] == s[..|b|];
    }
  }

  lemma NameHasPrefix(g: Group, millis: nat, i: nat)
    requires g.name.Some?
    ensures StartsWith(NodeName(g, millis, i), Prefix(g))
  {
    var p := Prefix(g);
    assert NodeName(g, millis, i)[..|p|] == p;
  }

  /** Lookup inverts naming: in any store, in any order, without nested prefixes, every name made at
      scale-up leads back to the group it was made for, whose label the node carries. */
  lemma {:induction false} LookupInvertsNaming(groups: seq<Group>, g: Group, millis: nat, i: nat)
    requires PrefixFree(groups) && g in groups && g.name.Some?
    ensures GroupFor(groups, NodeName(g, millis, i)) == Some(g)
    ensures LABEL_ASG in NewNode(g.name.value, g, NodeName(g, millis, i)).labels
    ensures Some(NewNode(g.name.value, g, NodeName(g, millis, i)).labels[LABEL_ASG]) == g.name
    decreases groups
  {
    var name := NodeName(g, millis, i);
    BornReady(g.name.value, g, name);
    NameHasPrefix(g, millis, i);
    if groups[0] != g {
      if groups[0].name.Some? && StartsWith(name, Prefix(groups[0])) {
        PrefixesOfOne(name, Prefix(g), Prefix(groups[0]));
        assert false;
      }
      LookupInvertsNaming(groups[1..], g, millis, i);
    }
  }

  /** In every order of the store, every name made at scale-up leads back to its group. */
  ghost predicate AlwaysLeadsBack(groups: seq<Group>) {
    forall order: seq<Group>, g, millis: nat, i: nat ::
      multiset(order) == multiset(groups) && g in groups && g.name.Some? ==>
          GroupFor(order, NodeName(g, millis, i)) == Some(g)
  }

  /** And only then: the names of a store's groups lead back in every order exactly when no group's prefix is
      a prefix of another's. */
  lemma LookupExact(groups: seq<Group>)
    ensures PrefixFree(groups) <==> AlwaysLeadsBack(groups)
  {
    if PrefixFree(groups) {
      forall order: seq<Group>, g, millis: nat, i: nat
        | multiset(order) == multiset(groups) && g in groups && g.name.Some?
        ensures GroupFor(order, NodeName(g, millis, i)) == Some(g)
      {
        SameMembers(order, groups);
        LookupInvertsNaming(order, g, millis, i);
      }
    } else {
      var a, b :| a in groups && b in groups && a != b && a.name.Some? && b.name.Some?
          && StartsWith(Prefix(a), Prefix(b));
      var order := OuterFirst(groups, a, b);
      assert GroupFor(order, NodeName(a, 0, 0)) != Some(a);
    }
  }

  lemma SameMembers(a: seq<Group>, b: seq<Group>)
    requires multiset(a) == multiset(b)
    ensures forall g :: g in a <==> g in b
  {
    forall g ensures g in a <==> g in b {
      assert g in a <==> g in multiset(a);
      assert g in b <==> g in multiset(b);
    }
  }

  /** The order that fails puts the group with the shorter prefix first. */
  lemma OuterFirst(groups: seq<Group>, inner: Group, outer: Group) returns (order: seq<Group>)
    requires outer in groups && inner.name.Some? && outer.name.Some? && StartsWith(Prefix(inner), Prefix(outer))
    ensures multiset(order) == multiset(groups) && GroupFor(order, NodeName(inner, 0, 0)) == Some(outer)
  {
    var i :| 0 <= i < |groups| && groups[i] == outer;
    order := [outer] + groups[..i] + groups[i + 1..];
    assert groups == groups[..i] + [groups[i]] + groups[i + 1..];
    NameHasPrefix(inner, 0, 0);
    var name := NodeName(inner, 0, 0);
    assert name[..|Prefix(outer)|] == name[..|Prefix(inner)|][..|Prefix(outer)|];
  }
}
