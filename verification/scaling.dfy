/** How many nodes a group has, over every run of the scale-up and scale-down RPCs. RPCs run one after
    the other; each may be cut short at any API call or meet an error there.
 */
module Scaling {
  import opened Wrappers
  import opened Cluster
  import opened Answering
  import opened Autoscaler

  // ---------- the size of a group ----------

  /** `nodes_for_group`: the nodes with the group's label that are not being deleted. */
  function Members(w: World, asgName: string): set<string> {
    set name | name in w.nodes && IsMember(w.nodes[name], asgName)
  }

  predicate IsMember(n: Node, asgName: string) {
    LABEL_ASG in n.labels && n.labels[LABEL_ASG] == asgName && !n.deleting
  }

  /** `as i32` */
  function ToI32(n: nat): (i: int)
    ensures -0x8000_0000 <= i <= 0x7FFF_FFFF && (n - i) % 0x1_0000_0000 == 0
  {
    (n + 0x8000_0000) % 0x1_0000_0000 - 0x8000_0000
  }

  /** `as usize` of an i32 */
  function ToUsize(n: int): int {
    if n < 0 then n + 0x1_0000_0000_0000_0000 else n
  }

  predicate Exceeds(delta: int, current: nat, maxSize: int) {
    ToUsize(delta) + current > ToUsize(maxSize)
  }

  function FindGroup(groups: seq<Group>, id: string): (g: Option<Group>)
    ensures g.Some? ==> g.value in groups && g.value.name == Some(id)
    ensures g.None? ==> forall h :: h in groups ==> h.name != Some(id)
  {
    if groups == [] then None
    else if groups[0].name == Some(id) then Some(groups[0])
    else FindGroup(groups[1..], id)
  }

  // ---------- the calls of an increase ----------

  /** A node that exists already is no error. */
  function Created(w: World, g: Group, name: string): World
    requires g.name.Some?
  {
    OrElse(CreateNode(w, name, NewNode(g.name.value, g, name)), w)
  }

  function MakeNode(w: World, g: Group, name: string, answers: Answers): (World, Answers, Status)
    requires g.name.Some?
  {
    var (w1, a1, s1) :=
      if g.hasUserData then Write(w, PutSecret(w, UserDataSecret(name)), answers) else (w, answers, Fine);
    if s1 != Fine then (w1, a1, s1)
    else
      var (w2, a2, s2) := Write(w1, PutSecret(w1, PasswordSecret(name)), a1);
      if s2 != Fine then (w2, a2, s2) else Write(w2, Created(w2, g, name), a2)
  }

  /** `clock` gives the time at which each node is named. */
  function MakeNodes(w: World, g: Group, clock: nat -> nat, i: nat, delta: nat, answers: Answers)
    : (World, Answers, Status)
    requires g.name.Some? && i <= delta
    decreases delta - i
  {
    if i == delta then (w, answers, Fine)
    else
      var (v, rest, status) := MakeNode(w, g, NodeName(g, clock(i), i), answers);
      if status != Fine then (v, rest, status) else MakeNodes(v, g, clock, i + 1, delta, rest)
  }

  function Increase(w: World, groups: seq<Group>, id: string, delta: int, clock: nat -> nat,
      answers: Answers): (World, Status) {
    if delta <= 0 then (w, InvalidArgument)
    else
      match FindGroup(groups, id)
      case None => (w, NotFound)
      case Some(g) =>
        var (_, a1, listed) := Write(w, w, answers);
        if listed != Fine then (w, listed)
        else if Exceeds(delta, |Members(w, id)|, g.maxSize) then (w, InvalidArgument)
        else
          var (_, a2, prepared) := Write(w, w, a1);
          if prepared != Fine then (w, prepared)
          else
            var (v, a3, made) := MakeNodes(w, g, clock, 0, delta, a2);
            if made != Fine then (v, made) else (v, Write(v, v, a3).2)
  }

  // ---------- the calls of a decrease ----------

  function DeleteAll(w: World, names: seq<string>, answers: Answers): (World, Answers, Status)
    decreases names
  {
    if names == [] then (w, answers, Fine)
    else
      var (v, rest, status) := Write(w, OrElse(DeleteNode(w, names[0]), w), answers);
      if status != Fine then (v, rest, status)
      else if names[0] !in w.nodes then (w, rest, Internal)
      else DeleteAll(v, names[1..], rest)
  }

  function Decrease(w: World, groups: seq<Group>, id: string, names: seq<string>, answers: Answers): (World, Status) {
    if FindGroup(groups, id).None? then (w, NotFound)
    else
      var (v, rest, status) := DeleteAll(w, names, answers);
      if status != Fine then (v, status) else (v, Write(v, v, rest).2)
  }

  // ---------- the provider ----------

  class Provider {
    const groups: seq<Group>
    var world: World
    var answers: Answers

    constructor (groups: seq<Group>, world: World, answers: Answers)
      ensures this.groups == groups && this.world == world && this.answers == answers
    {
      this.groups, this.world, this.answers := groups, world, answers;
    }

    /** A call: makes the world `v` if it is answered. */
    method Send(v: World) returns (status: Status)
      modifies this
      ensures (world, answers, status) == Write(old(world), v, old(answers))
    {
      if answers == [] { return Stopped; }
      if answers[0] { world, status := v, Fine; } else { status := Internal; }
      answers := answers[1..];
    }

    method CreateOne(g: Group, name: string) returns (status: Status)
      requires g.name.Some?
      modifies this
      ensures (world, answers, status) == MakeNode(old(world), g, name, old(answers))
    {
      if g.hasUserData {
        status := Send(PutSecret(world, UserDataSecret(name)));
        if status != Fine { return; }
      }
      status := Send(PutSecret(world, PasswordSecret(name)));
      if status != Fine { return; }
      var attrs := BuildNodeLabelsAndTaints(g.name.value, g);
      var labels := attrs.labels[LABEL_HOSTNAME := name];
      var node := Node(0, labels, attrs.annotations, [FINALIZER], false, None, attrs.taints, []);
      status := Send(OrElse(CreateNode(world, name, node), world));
    }

    /** `node_group_increase_size` */
    method IncreaseSize(id: string, delta: int, clock: nat -> nat) returns (status: Status)
      modifies this
      ensures (world, status) == Increase(old(world), groups, id, delta, clock, old(answers))
    {
      if delta <= 0 { return InvalidArgument; }
      var found := FindGroup(groups, id);
      if found.None? { return NotFound; }
      var g := found.value;
      status := Send(world);
      if status != Fine { return; }
      if Exceeds(delta, |Members(world, id)|, g.maxSize) { return InvalidArgument; }
      status := Send(world);
      if status != Fine { return; }
      status := CreateNodes(g, delta, clock);
      if status != Fine { return; }
      status := Send(world);
    }

    method CreateNodes(g: Group, delta: nat, clock: nat -> nat) returns (status: Status)
      requires g.name.Some?
      modifies this
      ensures (world, answers, status) == MakeNodes(old(world), g, clock, 0, delta, old(answers))
    {
      for i := 0 to delta
        invariant MakeNodes(old(world), g, clock, 0, delta, old(answers))
            == MakeNodes(world, g, clock, i, delta, answers)
      {
        status := CreateOne(g, NodeName(g, clock(i), i));
        if status != Fine { return; }
      }
      status := Fine;
    }

    /** `node_group_delete_nodes` */
    method DeleteNodes(id: string, names: seq<string>) returns (status: Status)
      modifies this
      ensures (world, status) == Decrease(old(world), groups, id, names, old(answers))
    {
      if FindGroup(groups, id).None? { return NotFound; }
      for i := 0 to |names|
        invariant DeleteAll(old(world), names, old(answers)) == DeleteAll(world, names[i..], answers)
      {
        assert names[i..][1..] == names[i + 1..];
        var present := names[i] in world.nodes;
        status := Send(OrElse(DeleteNode(world, names[i]), world));
        if status == Fine && !present { status := Internal; }
        if status != Fine { return; }
      }
      status := Send(world);
    }

    /** `node_group_target_size` */
    method TargetSize(id: string) returns (status: Status, size: int)
      modifies this
      ensures world == old(world)
      ensures status == Fine ==> FindGroup(groups, id).Some? && size == ToI32(|Members(world, id)|)
      ensures status == NotFound <==> FindGroup(groups, id).None?
      ensures FindGroup(groups, id).Some? && Answered(old(answers)) >= 1 ==> status == Fine
    {
      size := 0;
      if FindGroup(groups, id).None? { return NotFound, 0; }
      status := Send(world);
      if status == Fine { size := ToI32(|Members(world, id)|); }
    }
  }
}
