/** Bound and conservation of group sizes. Nobody else is assumed to write nodes except in ways that
    add no member to a group.
 */
module ScalingTheorems {
  import opened Wrappers
  import opened Text
  import opened Cluster
  import opened Answering
  import opened Autoscaler
  import opened Scaling

  // ---------- one node ----------

  /** The node is there as made, and nothing else about nodes has changed. */
  predicate OnlyAdded(w: World, v: World, g: Group, name: string)
    requires g.name.Some?
  {
    || v.nodes == w.nodes
    || (name !in w.nodes && name in v.nodes && v.nodes == w.nodes[name := v.nodes[name]]
        && IsMember(v.nodes[name], g.name.value)
        && v.nodes[name] == NewNode(g.name.value, g, name).(uid := w.nextUid))
  }

  lemma CreatedAdds(w: World, g: Group, name: string)
    requires g.name.Some?
    ensures OnlyAdded(w, Created(w, g, name), g, name) && name in Created(w, g, name).nodes
  {
    BornReady(g.name.value, g, name);
  }

  lemma MakeNodeAdds(w: World, g: Group, name: string, answers: Answers)
    requires g.name.Some?
    ensures var (v, _, status) := MakeNode(w, g, name, answers);
      OnlyAdded(w, v, g, name) && (status == Fine ==> name in v.nodes)
  {
    CreatedAdds(PutSecret(w, PasswordSecret(name)), g, name);
    CreatedAdds(PutSecret(PutSecret(w, UserDataSecret(name)), PasswordSecret(name)), g, name);
  }

  lemma AddedMember(w: World, v: World, g: Group, name: string, asgName: string)
    requires g.name.Some? && OnlyAdded(w, v, g, name)
    ensures Members(v, asgName) ==
      if v.nodes != w.nodes && g.name == Some(asgName) then Members(w, asgName) + {name} else Members(w, asgName)
  {
    if v.nodes != w.nodes {
      assert forall x :: x in v.nodes && x != name ==> x in w.nodes && v.nodes[x] == w.nodes[x];
      assert forall x :: x in w.nodes ==> x in v.nodes && v.nodes[x] == w.nodes[x];
      assert name !in Members(w, asgName);
    }
  }

  // ---------- an increase ----------

  /** Whether it succeeds or stops midway, making nodes adds at most as many members as it still has
      to make, and none to any other group. */
  lemma {:induction false} MakeNodesBound(w: World, g: Group, clock: nat -> nat, i: nat, delta: nat, answers: Answers,
      asgName: string)
    requires g.name.Some? && i <= delta
    ensures var (v, _, _) := MakeNodes(w, g, clock, i, delta, answers);
      |Members(v, asgName)| <= |Members(w, asgName)| + if g.name == Some(asgName) then delta - i else 0
    decreases delta - i
  {
    if i < delta {
      var name := NodeName(g, clock(i), i);
      var (v, rest, status) := MakeNode(w, g, name, answers);
      MakeNodeAdds(w, g, name, answers);
      AddedMember(w, v, g, name, asgName);
      if status == Fine {
        MakeNodesBound(v, g, clock, i + 1, delta, rest, asgName);
      }
    }
  }

  function NewNames(g: Group, clock: nat -> nat, i: nat, delta: nat): (names: set<string>)
    requires g.name.Some?
  {
    set k | i <= k < delta :: NodeName(g, clock(k), k)
  }

  /** The next name to make is none of the later ones. */
  lemma NextName(g: Group, clock: nat -> nat, i: nat, delta: nat)
    requires g.name.Some? && i < delta
    ensures var name, later := NodeName(g, clock(i), i), NewNames(g, clock, i + 1, delta);
      name !in later && NewNames(g, clock, i, delta) == later + {name}
  {
    var name := NodeName(g, clock(i), i);
    forall k | i < k < delta ensures NodeName(g, clock(k), k) != name {
      if NodeName(g, clock(k), k) == name { NamesDistinct(g, clock(k), k, clock(i), i); }
    }
  }

  lemma {:induction false} AsManyNames(g: Group, clock: nat -> nat, i: nat, delta: nat)
    requires g.name.Some? && i <= delta
    ensures |NewNames(g, clock, i, delta)| == delta - i
    decreases delta - i
  {
    if i < delta {
      AsManyNames(g, clock, i + 1, delta);
      NextName(g, clock, i, delta);
    }
  }

  /** The group has these new members, made for it, and every other node and all servers are as they were. */
  ghost predicate Joined(w: World, v: World, asgName: string, g: Group, names: set<string>) {
    && Members(v, asgName) == Members(w, asgName) + names
    && v.nodes.Keys == w.nodes.Keys + names
    && (forall x :: x in w.nodes ==> v.nodes[x] == w.nodes[x])
    && (forall x :: x in names ==> MadeFor(v.nodes[x], asgName, g, x))
    && v.servers == w.servers && v.nextServer == w.nextServer
  }

  /** The node as made for its group, under whatever uid. */
  predicate MadeFor(n: Node, asgName: string, g: Group, name: string) {
    n == NewNode(asgName, g, name).(uid := n.uid)
  }

  lemma OneJoins(w: World, g: Group, name: string, answers: Answers, asgName: string)
    requires g.name == Some(asgName) && name !in w.nodes && MakeNode(w, g, name, answers).2 == Fine
    ensures Joined(w, MakeNode(w, g, name, answers).0, asgName, g, {name})
  {
    var v := MakeNode(w, g, name, answers).0;
    MakeNodeAdds(w, g, name, answers);
    AddedMember(w, v, g, name, asgName);
  }

  lemma JoinedTwice(w: World, v: World, u: World, asgName: string, g: Group, a: set<string>, b: set<string>)
    requires Joined(w, v, asgName, g, a) && Joined(v, u, asgName, g, b)
    ensures Joined(w, u, asgName, g, b + a)
  {
    assert Members(u, asgName) == Members(w, asgName) + (b + a);
    assert u.nodes.Keys == w.nodes.Keys + (b + a);
    assert a <= v.nodes.Keys;
    forall x | x in a ensures MadeFor(u.nodes[x], asgName, g, x) {
      assert u.nodes[x] == v.nodes[x];
    }
  }

  /** Making nodes with new names to success adds exactly those names. */
  lemma {:induction false} MakeNodesExact(w: World, g: Group, clock: nat -> nat, i: nat, delta: nat, answers: Answers,
      asgName: string)
    requires g.name == Some(asgName) && i <= delta
    requires NewNames(g, clock, i, delta) !! w.nodes.Keys
    requires MakeNodes(w, g, clock, i, delta, answers).2 == Fine
    ensures Joined(w, MakeNodes(w, g, clock, i, delta, answers).0, asgName, g, NewNames(g, clock, i, delta))
    decreases delta - i
  {
    if i < delta {
      var name := NodeName(g, clock(i), i);
      var (v, rest, status) := MakeNode(w, g, name, answers);
      NextName(g, clock, i, delta);
      OneJoins(w, g, name, answers, asgName);
      MakeNodesExact(v, g, clock, i + 1, delta, rest, asgName);
      JoinedTwice(w, v, MakeNodes(v, g, clock, i + 1, delta, rest).0, asgName, g, {name},
          NewNames(g, clock, i + 1, delta));
    }
  }

  /** A successful increase whose names are new adds exactly `delta` members, under pairwise distinct
      names, each as a new node of the group, and leaves every other node and all servers alone. */
  lemma IncreaseAddsDelta(w: World, groups: seq<Group>, id: string, delta: int, clock: nat -> nat, answers: Answers)
    requires Increase(w, groups, id, delta, clock, answers).1 == Fine
    requires NewNames(FindGroup(groups, id).value, clock, 0, delta) !! w.nodes.Keys
    ensures var v := Increase(w, groups, id, delta, clock, answers).0;
      && |Members(v, id)| == |Members(w, id)| + delta
      && Joined(w, v, id, FindGroup(groups, id).value, NewNames(FindGroup(groups, id).value, clock, 0, delta))
  {
    var g := FindGroup(groups, id).value;
    var a2 := Write(w, w, Write(w, w, answers).1).1;
    MakeNodesExact(w, g, clock, 0, delta, a2, id);
    AsManyNames(g, clock, 0, delta);
    assert Members(w, id) !! NewNames(g, clock, 0, delta);
  }

  // ---------- secrets come first ----------

  /** Every node that was not there before has its secrets. */
  ghost predicate SecretsReady(w: World, v: World, g: Group) {
    && w.secrets <= v.secrets
    && forall name :: name in v.nodes && name !in w.nodes ==>
         PasswordSecret(name) in v.secrets && (g.hasUserData ==> UserDataSecret(name) in v.secrets)
  }

  lemma MakeNodeReady(w: World, g: Group, name: string, answers: Answers)
    requires g.name.Some?
    ensures SecretsReady(w, MakeNode(w, g, name, answers).0, g)
  {
  }

  /** A node never appears before its secrets: however an increase ends, each node it made has its password
      and, if the group has any, its user data. */
  lemma {:induction false} SecretsBeforeNodes(w: World, g: Group, clock: nat -> nat, i: nat, delta: nat,
      answers: Answers)
    requires g.name.Some? && i <= delta
    ensures SecretsReady(w, MakeNodes(w, g, clock, i, delta, answers).0, g)
    decreases delta - i
  {
    if i < delta {
      var name := NodeName(g, clock(i), i);
      var (v, rest, status) := MakeNode(w, g, name, answers);
      MakeNodeReady(w, g, name, answers);
      if status == Fine {
        SecretsBeforeNodes(v, g, clock, i + 1, delta, rest);
      }
    }
  }

  /** The secret is one of a new node. */
  predicate SecretFor(s: string, g: Group, name: string) {
    s == PasswordSecret(name) || (g.hasUserData && s == UserDataSecret(name))
  }

  ghost predicate OnlySecretsOf(w: World, v: World, g: Group, names: set<string>) {
    forall s :: s in v.secrets && s !in w.secrets ==> exists x :: x in names && SecretFor(s, g, x)
  }

  /** However an increase ends, every secret it wrote is the password or, if the group has user data, the user data
      of one of the names it was to make. */
  lemma {:induction false} NoOtherSecrets(w: World, g: Group, clock: nat -> nat, i: nat, delta: nat, answers: Answers)
    requires g.name.Some? && i <= delta
    ensures OnlySecretsOf(w, MakeNodes(w, g, clock, i, delta, answers).0, g, NewNames(g, clock, i, delta))
    decreases delta - i
  {
    if i < delta {
      var name := NodeName(g, clock(i), i);
      var (v, rest, status) := MakeNode(w, g, name, answers);
      var u := MakeNodes(w, g, clock, i, delta, answers).0;
      NextName(g, clock, i, delta);
      MakeNodeSecrets(w, g, name, answers);
      if status == Fine { NoOtherSecrets(v, g, clock, i + 1, delta, rest); }
      forall s | s in u.secrets && s !in w.secrets
        ensures exists x :: x in NewNames(g, clock, i, delta) && SecretFor(s, g, x)
      {
        if s in v.secrets { assert SecretFor(s, g, name); }
      }
    }
  }

  lemma MakeNodeSecrets(w: World, g: Group, name: string, answers: Answers)
    requires g.name.Some?
    ensures forall s :: s in MakeNode(w, g, name, answers).0.secrets && s !in w.secrets ==> SecretFor(s, g, name)
  {
  }

  /** The world after the first `k` calls of making a node: user data, if the group has any, then the password, then
      the node, unless there is one of that name. */
  function MakingNode(w: World, g: Group, name: string, k: nat): World
    requires g.name.Some?
  {
    var data := if g.hasUserData then 1 else 0;
    var secrets := (if g.hasUserData && k >= 1 then {UserDataSecret(name)} else {})
        + (if k >= data + 1 then {PasswordSecret(name)} else {});
    var v := w.(secrets := w.secrets + secrets);
    if k >= data + 2 && name !in w.nodes
    then v.(nodes := w.nodes[name := NewNode(g.name.value, g, name).(uid := w.nextUid)], nextUid := w.nextUid + 1)
    else v
  }

  /** Making a node gets as far as its calls are answered. */
  lemma MakeNodeExact(w: World, g: Group, name: string, answers: Answers)
    requires g.name.Some?
    ensures MakeNode(w, g, name, answers).0 == MakingNode(w, g, name, Answered(answers))
  {
    if g.hasUserData {
      MakeWithData(w, g, name, answers);
    } else {
      MakeWithoutData(w, g, name, answers);
    }
  }

  lemma MakeWithoutData(w: World, g: Group, name: string, answers: Answers)
    requires g.name.Some? && !g.hasUserData
    ensures MakeNode(w, g, name, answers).0 == MakingNode(w, g, name, Answered(answers))
  {
    assert w.secrets + ({} + {}) == w.secrets;
    assert w.secrets + ({} + {PasswordSecret(name)}) == w.secrets + {PasswordSecret(name)};
  }

  lemma MakeWithData(w: World, g: Group, name: string, answers: Answers)
    requires g.name.Some? && g.hasUserData
    ensures MakeNode(w, g, name, answers).0 == MakingNode(w, g, name, Answered(answers))
  {
    var k := Answered(answers);
    if k == 0 {
      assert w.secrets + ({} + {}) == w.secrets;
    } else {
      // The rest is as without user data, from the world that has it.
      var plain, v := g.(hasUserData := false), PutSecret(w, UserDataSecret(name));
      MakeWithoutData(v, plain, name, answers[1..]);
      SameNewNode(g, name);
      assert MakeNode(w, g, name, answers).0 == MakeNode(v, plain, name, answers[1..]).0;
      SecretsAdd(w.secrets, {UserDataSecret(name)}, if k >= 2 then {PasswordSecret(name)} else {});
      assert MakingNode(v, plain, name, k - 1).secrets == MakingNode(w, g, name, k).secrets;
    }
  }

  lemma SecretsAdd(a: set<string>, b: set<string>, c: set<string>)
    ensures a + b + ({} + c) == a + (b + c)
  {
  }

  lemma SameNewNode(g: Group, name: string)
    requires g.name.Some?
    ensures NewNode(g.name.value, g.(hasUserData := false), name) == NewNode(g.name.value, g, name)
  {
  }

  // ---------- how an increase ends ----------

  /** The calls that making `n` nodes takes. */
  function CallsFor(g: Group, n: nat): nat {
    if g.hasUserData then 3 * n else 2 * n
  }

  lemma MakeNodeSucceeds(w: World, g: Group, name: string, answers: Answers)
    requires g.name.Some?
    ensures var (v, rest, status) := MakeNode(w, g, name, answers);
      && (status == Fine <==> Answered(answers) >= CallsFor(g, 1))
      && (status == Fine ==> Answered(rest) == Answered(answers) - CallsFor(g, 1))
  {
    assert Answered(answers) >= 1 ==> Answered(answers[1..]) == Answered(answers) - 1;
    assert Answered(answers) >= 2 ==> Answered(answers[1..][1..]) == Answered(answers) - 2;
  }

  /** Making nodes succeeds exactly if all the calls are answered. */
  lemma {:induction false} MakeNodesSucceeds(w: World, g: Group, clock: nat -> nat, i: nat, delta: nat,
      answers: Answers)
    requires g.name.Some? && i <= delta
    ensures var (v, rest, status) := MakeNodes(w, g, clock, i, delta, answers);
      && (status == Fine <==> Answered(answers) >= CallsFor(g, delta - i))
      && (status == Fine ==> Answered(rest) == Answered(answers) - CallsFor(g, delta - i))
    decreases delta - i
  {
    if i < delta {
      var name := NodeName(g, clock(i), i);
      MakeNodeSucceeds(w, g, name, answers);
      var (v, rest, status) := MakeNode(w, g, name, answers);
      if status == Fine { MakeNodesSucceeds(v, g, clock, i + 1, delta, rest); }
    }
  }

  /** The group's limit, unless negative, would be exceeded. */
  predicate OverLimit(w: World, g: Group, id: string, delta: int) {
    0 <= g.maxSize < delta + |Members(w, id)|
  }

  /** How an increase of any size ends: refused without effect if its size is not positive, there is no group of
      that name, or the group's limit, unless negative, would be exceeded. Otherwise it is fine exactly if its calls
      are answered: one to list the nodes, one to prepare, two or three for each node, and one to note the time. */
  lemma IncreaseExact(w: World, groups: seq<Group>, id: string, delta: int, clock: nat -> nat, answers: Answers)
    ensures var (v, status) := Increase(w, groups, id, delta, clock, answers);
      && (delta <= 0 ==> status == InvalidArgument && v == w)
      && (delta > 0 && (forall g :: g in groups ==> g.name != Some(id)) ==> status == NotFound && v == w)
      && (delta > 0 && FindGroup(groups, id).Some? && SmallEnough(w, FindGroup(groups, id).value, id, delta) ==>
            var g := FindGroup(groups, id).value;
            && (OverLimit(w, g, id, delta) || Answered(answers) < 2 ==> v == w)
            && (OverLimit(w, g, id, delta) && Answered(answers) >= 1 ==> status == InvalidArgument)
            && (status == Fine <==> !OverLimit(w, g, id, delta) && Answered(answers) >= 3 + CallsFor(g, delta)))
  {
    var found := FindGroup(groups, id);
    if delta > 0 && found.Some? && SmallEnough(w, found.value, id, delta) {
      GuardExact(delta, |Members(w, id)|, found.value.maxSize);
      if Answered(answers) >= 2 && !OverLimit(w, found.value, id, delta) {
        TwoAnswered(w, answers);
        MakeNodesSucceeds(w, found.value, clock, 0, delta, answers[1..][1..]);
      }
    }
  }

  lemma TwoAnswered(w: World, answers: Answers)
    requires Answered(answers) >= 2
    ensures Answered(answers[1..]) == Answered(answers) - 1
    ensures Write(w, w, answers) == (w, answers[1..], Fine)
    ensures Write(w, w, answers[1..]) == (w, answers[1..][1..], Fine)
    ensures Answered(answers[1..][1..]) == Answered(answers) - 2
  {
  }

  /** Both numbers are i32, and the list of members fits into memory. */
  predicate SmallEnough(w: World, g: Group, id: string, delta: int) {
    && delta <= 0x7FFF_FFFF && -0x8000_0000 <= g.maxSize <= 0x7FFF_FFFF
    && |Members(w, id)| < 0x4000_0000_0000_0000
  }

  /** For a limit that is not negative the guard says what it should; a negative one wraps around. */
  lemma GuardExact(delta: int, current: nat, maxSize: int)
    requires 0 < delta <= 0x7FFF_FFFF && -0x8000_0000 <= maxSize <= 0x7FFF_FFFF
    requires current < 0x4000_0000_0000_0000
    ensures Exceeds(delta, current, maxSize) <==> 0 <= maxSize < delta + current
  {
  }

  /** So a successful increase under new names respects the limit exactly if the limit is not negative. */
  lemma IncreaseRespectsLimit(w: World, groups: seq<Group>, id: string, delta: int, clock: nat -> nat, answers: Answers)
    requires Increase(w, groups, id, delta, clock, answers).1 == Fine
    requires var g := FindGroup(groups, id).value;
      && -0x8000_0000 <= g.maxSize <= 0x7FFF_FFFF && delta <= 0x7FFF_FFFF && |Members(w, id)| < 0x4000_0000_0000_0000
      && NewNames(g, clock, 0, delta) !! w.nodes.Keys
    ensures var g := FindGroup(groups, id).value;
      |Members(Increase(w, groups, id, delta, clock, answers).0, id)| <= g.maxSize <==> 0 <= g.maxSize
  {
    IncreaseAddsDelta(w, groups, id, delta, clock, answers);
    GuardExact(delta, |Members(w, id)|, FindGroup(groups, id).value.maxSize);
  }

  /** A group with a negative limit grows. */
  lemma NegativeLimitLetsThrough()
    ensures var g := Group(Some("g"), 0, -1, "s", "r", "i", "", false, Template([], map[], []));
      var w := World(map[], {}, map[], 0, 0);
      var (v, status) := Increase(w, [g], "g", 1, i => 0, [true, true, true, true, true]);
      status == Fine && |Members(w, "g")| == 0 && |Members(v, "g")| == 1
  {
    var g := Group(Some("g"), 0, -1, "s", "r", "i", "", false, Template([], map[], []));
    var w := World(map[], {}, map[], 0, 0);
    var clock: nat -> nat := i => 0;
    var answers := [true, true, true, true, true];
    assert Members(w, "g") == {};
    assert FindGroup([g], "g") == Some(g) && !Exceeds(1, 0, -1);
    var a2 := [true, true, true];
    assert answers[1..][1..] == a2;
    OneNodeIsMade(w, g, clock, a2);
    IncreaseAddsDelta(w, [g], "g", 1, clock, answers);
  }

  lemma OneNodeIsMade(w: World, g: Group, clock: nat -> nat, answers: Answers)
    requires g.name.Some? && !g.hasUserData && answers == [true, true, true]
    ensures MakeNodes(w, g, clock, 0, 1, answers).2 == Fine && MakeNodes(w, g, clock, 0, 1, answers).1 == [true]
  {
    var name := NodeName(g, clock(0), 0);
    assert answers[1..][1..] == [true];
    assert MakeNode(w, g, name, answers).2 == Fine && MakeNode(w, g, name, answers).1 == [true];
  }

  lemma IncreaseKeepsBound(w: World, groups: seq<Group>, id: string, delta: int, clock: nat -> nat, answers: Answers,
                           g: Group, asgName: string)
    requires FindGroup(groups, asgName) == Some(g) && 0 <= g.maxSize && |Members(w, asgName)| <= g.maxSize
    ensures |Members(Increase(w, groups, id, delta, clock, answers).0, asgName)| <= g.maxSize
  {
    var found := FindGroup(groups, id);
    if delta > 0 && found.Some? {
      var a2 := Write(w, w, Write(w, w, answers).1).1;
      MakeNodesBound(w, found.value, clock, 0, delta, a2, asgName);
    }
  }

  // ---------- a decrease ----------

  lemma DeletedMember(w: World, name: string, asgName: string)
    requires name in w.nodes
    ensures var v := DeleteNode(w, name).value;
      && Members(v, asgName) == Members(w, asgName) - {name}
      && (forall x :: x != name ==> (x in v.nodes <==> x in w.nodes) && (x in v.nodes ==> v.nodes[x] == w.nodes[x]))
  {
    var v := DeleteNode(w, name).value;
    forall x | x in Members(w, asgName) - {name} ensures x in Members(v, asgName) {
      assert v.nodes[x] == w.nodes[x];
    }
  }

  lemma {:induction false} DeleteAllOnly(w: World, names: seq<string>, answers: Answers, asgName: string)
    ensures Members(DeleteAll(w, names, answers).0, asgName) <= Members(w, asgName)
    decreases names
  {
    if names != [] {
      var (v, rest, status) := Write(w, OrElse(DeleteNode(w, names[0]), w), answers);
      if names[0] in w.nodes { DeletedMember(w, names[0], asgName); }
      if status == Fine && names[0] in w.nodes { DeleteAllOnly(v, names[1..], rest, asgName); }
    }
  }

  lemma {:induction false} DeleteAllExact(w: World, names: seq<string>, answers: Answers, asgName: string)
    requires DeleteAll(w, names, answers).2 == Fine
    ensures Members(DeleteAll(w, names, answers).0, asgName) == Members(w, asgName) - Elements(names)
    decreases names
  {
    if names != [] {
      var (v, rest, status) := Write(w, OrElse(DeleteNode(w, names[0]), w), answers);
      DeletedMember(w, names[0], asgName);
      DeleteAllExact(v, names[1..], rest, asgName);
      assert Elements(names) == {names[0]} + Elements(names[1..]);
    }
  }

  lemma {:induction false} DistinctCount(names: seq<string>)
    requires forall i, j :: 0 <= i < j < |names| ==> names[i] != names[j]
    ensures |Elements(names)| == |names|
  {
    if names != [] {
      DistinctCount(names[1..]);
      assert Elements(names) == {names[0]} + Elements(names[1..]);
      assert names[0] !in Elements(names[1..]);
    }
  }

  /** Deleting k distinct live members of a group subtracts exactly k. */
  lemma DecreaseSubtracts(w: World, groups: seq<Group>, id: string, names: seq<string>, answers: Answers)
    requires Decrease(w, groups, id, names, answers).1 == Fine
    requires forall i :: 0 <= i < |names| ==> names[i] in Members(w, id)
    requires forall i, j :: 0 <= i < j < |names| ==> names[i] != names[j]
    ensures |Members(Decrease(w, groups, id, names, answers).0, id)| == |Members(w, id)| - |names|
  {
    DeleteAllExact(w, names, answers, id);
    DistinctCount(names);
    assert Elements(names) <= Members(w, id);
  }

  /** A node that is named may be as it was, being deleted, or gone if nothing held it; any other is as it was. */
  ghost predicate Touched(w: World, v: World, names: set<string>, x: string) {
    if x !in w.nodes then x !in v.nodes
    else if x !in v.nodes then x in names && w.nodes[x].finalizers == []
    else v.nodes[x] == w.nodes[x] || (x in names && v.nodes[x] == w.nodes[x].(deleting := true))
  }

  ghost predicate OnlyDeleted(w: World, v: World, names: set<string>) {
    && v == w.(nodes := v.nodes)
    && forall x :: x in w.nodes.Keys + v.nodes.Keys ==> Touched(w, v, names, x)
  }

  lemma DeletedOnly(w: World, name: string)
    requires name in w.nodes
    ensures OnlyDeleted(w, DeleteNode(w, name).value, {name})
  {
  }

  lemma OnlyDeletedTwice(w: World, v: World, u: World, a: set<string>, b: set<string>)
    requires OnlyDeleted(w, v, a) && OnlyDeleted(v, u, b)
    ensures OnlyDeleted(w, u, a + b)
  {
    forall x | x in w.nodes.Keys + u.nodes.Keys ensures Touched(w, u, a + b, x) {
      assert x in w.nodes.Keys + v.nodes.Keys ==> Touched(w, v, a, x);
      assert x in v.nodes.Keys + u.nodes.Keys ==> Touched(v, u, b, x);
    }
  }

  /** However a decrease ends, it does nothing but request the deletion of nodes it was told to delete. */
  lemma {:induction false} DeleteAllTouches(w: World, names: seq<string>, answers: Answers)
    ensures OnlyDeleted(w, DeleteAll(w, names, answers).0, Elements(names))
    decreases names
  {
    if names != [] {
      var (v, rest, status) := Write(w, OrElse(DeleteNode(w, names[0]), w), answers);
      if status == Fine && names[0] in w.nodes {
        DeletedOnly(w, names[0]);
        DeleteAllTouches(v, names[1..], rest);
        OnlyDeletedTwice(w, v, DeleteAll(v, names[1..], rest).0, {names[0]}, Elements(names[1..]));
        assert Elements(names) == {names[0]} + Elements(names[1..]);
      }
    }
  }

  predicate Leaving(w: World, x: string) { x !in w.nodes || w.nodes[x].deleting }

  lemma {:induction false} DeleteAllSucceeds(w: World, names: seq<string>, answers: Answers)
    requires forall i :: 0 <= i < |names| ==> names[i] in w.nodes
    requires forall i, j :: 0 <= i < j < |names| ==> names[i] != names[j]
    requires Answered(answers) >= |names|
    ensures var (v, rest, status) := DeleteAll(w, names, answers);
      && status == Fine && Answered(rest) == Answered(answers) - |names|
      && (forall x :: x in names ==> Leaving(v, x))
      && (forall x :: Leaving(w, x) ==> Leaving(v, x))
    decreases names
  {
    if names != [] {
      var v := DeleteNode(w, names[0]).value;
      assert Answered(answers[1..]) == Answered(answers) - 1;
      forall i | 0 <= i < |names[1..]| ensures names[1..][i] in v.nodes {
        assert names[1..][i] == names[i + 1];
      }
      DeleteAllSucceeds(v, names[1..], answers[1..]);
      assert Leaving(v, names[0]);
      forall x | x in names ensures x == names[0] || x in names[1..] {}
    }
  }

  lemma {:induction false} AbsentFails(w: World, names: seq<string>, answers: Answers, x: string)
    requires x in names && x !in w.nodes
    ensures DeleteAll(w, names, answers).2 != Fine
    decreases names
  {
    var (v, rest, status) := Write(w, OrElse(DeleteNode(w, names[0]), w), answers);
    if status == Fine && names[0] in w.nodes {
      AbsentFails(v, names[1..], rest, x);
    }
  }

  lemma {:induction false} DeletesNeedAnswers(w: World, names: seq<string>, answers: Answers)
    ensures var (v, rest, status) := DeleteAll(w, names, answers);
      status == Fine ==> Answered(answers) == |names| + Answered(rest)
    decreases names
  {
    if names != [] {
      var (v, rest, status) := Write(w, OrElse(DeleteNode(w, names[0]), w), answers);
      if status == Fine && names[0] in w.nodes {
        DeletesNeedAnswers(v, names[1..], rest);
      }
    }
  }

  /** How a decrease ends: refused without effect if there is no group of that name; not fine if a named node is
      absent or a call is not answered; fine, with every named node being deleted or gone, if the names are distinct and
      those of nodes and each call is answered. Anyway it does nothing but delete named nodes. */
  lemma DecreaseExact(w: World, groups: seq<Group>, id: string, names: seq<string>, answers: Answers)
    ensures var (v, status) := Decrease(w, groups, id, names, answers);
      && OnlyDeleted(w, v, Elements(names))
      && ((forall g :: g in groups ==> g.name != Some(id)) ==> status == NotFound && v == w)
      && ((exists x :: x in names && x !in w.nodes) || Answered(answers) < |names| + 1 ==> status != Fine)
      && ((exists g :: g in groups && g.name == Some(id)) && Answered(answers) >= |names| + 1
          && (forall i :: 0 <= i < |names| ==> names[i] in w.nodes)
          && (forall i, j :: 0 <= i < j < |names| ==> names[i] != names[j]) ==>
            status == Fine && forall x :: x in names ==> Leaving(v, x))
  {
    DeleteAllTouches(w, names, answers);
    DeletesNeedAnswers(w, names, answers);
    if x :| x in names && x !in w.nodes { AbsentFails(w, names, answers, x); }
    if Answered(answers) >= |names| + 1 && (forall i :: 0 <= i < |names| ==> names[i] in w.nodes)
      && (forall i, j :: 0 <= i < j < |names| ==> names[i] != names[j])
    {
      DeleteAllSucceeds(w, names, answers);
    }
  }

  // ---------- every run ----------

  datatype Rpc =
    | IncreaseSize(id: string, delta: int, clock: nat -> nat, answers: Answers)
    | DeleteNodes(id: string, names: seq<string>, answers: Answers)
    | Others(w: World)

  /** What others do adds no member to any group. */
  ghost predicate Possible(w: World, rpc: Rpc) {
    rpc.Others? ==> forall asgName :: Members(rpc.w, asgName) <= Members(w, asgName)
  }

  function AfterRpc(w: World, groups: seq<Group>, rpc: Rpc): World {
    match rpc
    case IncreaseSize(id, delta, clock, answers) => Increase(w, groups, id, delta, clock, answers).0
    case DeleteNodes(id, names, answers) => Decrease(w, groups, id, names, answers).0
    case Others(v) => v
  }

  ghost predicate Legal(w: World, groups: seq<Group>, rpcs: seq<Rpc>)
    decreases |rpcs|
  {
    rpcs == [] || (Possible(w, rpcs[0]) && Legal(AfterRpc(w, groups, rpcs[0]), groups, rpcs[1..]))
  }

  function Exec(w: World, groups: seq<Group>, rpcs: seq<Rpc>): World
    decreases |rpcs|
  {
    if |rpcs| == 0 then w else Exec(AfterRpc(w, groups, rpcs[0]), groups, rpcs[1..])
  }

  lemma Smaller(a: set<string>, b: set<string>)
    requires a <= b
    ensures |a| <= |b|
  {
    if a != b {
      assert b == a + (b - a);
    }
  }

  /** Scale bound: starting within its limit, a group never exceeds it, over every run of the RPCs,
      including those that fail midway; and its reported target size is its number of members. */
  lemma {:induction false} ScaleBound(w: World, groups: seq<Group>, rpcs: seq<Rpc>, g: Group, asgName: string)
    requires FindGroup(groups, asgName) == Some(g) && 0 <= g.maxSize <= 0x7FFF_FFFF
    requires |Members(w, asgName)| <= g.maxSize && Legal(w, groups, rpcs)
    ensures var size := |Members(Exec(w, groups, rpcs), asgName)|; size <= g.maxSize && ToI32(size) == size
    decreases |rpcs|
  {
    if |rpcs| != 0 {
      var v := AfterRpc(w, groups, rpcs[0]);
      match rpcs[0] {
        case IncreaseSize(id, delta, clock, answers) =>
          IncreaseKeepsBound(w, groups, id, delta, clock, answers, g, asgName);
        case DeleteNodes(id, names, answers) =>
          DeleteAllOnly(w, names, answers, asgName);
          Smaller(Members(v, asgName), Members(w, asgName));
        case Others(u) => Smaller(Members(u, asgName), Members(w, asgName));
      }
      ScaleBound(v, groups, rpcs[1..], g, asgName);
    }
  }
}
