/** What node-deletion does to a live node: one whose server is gone is removed, any other that is bound,
    to be provisioned or to be adopted keeps our finalizer. Regime: crash-atomic, as in `Teardown`.
 */
module Removal {
  import opened Wrappers
  import opened Text
  import opened Cluster
  import opened Lifecycle
  import opened Answering
  import opened Teardown

  // ---------- a node whose server is gone ----------

  ghost predicate Orphaned(w: World, name: string) {
    && name in w.nodes && !w.nodes[name].deleting
    && BoundId(w.nodes[name]).Some? && BoundId(w.nodes[name]).value !in w.servers
  }

  /** The world after the first `stage` of three effects: the two secrets, the request to delete the node. */
  function Gone(w: World, name: string, stage: nat): World
    requires name in w.nodes
  {
    var secrets := (if stage >= 1 then {PasswordSecret(name)} else {})
        + (if stage >= 2 then {UserDataSecret(name)} else {});
    var v := w.(secrets := w.secrets - secrets);
    if stage >= 3 then PutNode(v, name, v.nodes[name].(deleting := true)) else v
  }

  function GoneStage(pc: Pc): nat {
    match pc
    case CheckServer(_) => 0
    case GonePassword => 0
    case GoneUserData => 1
    case GoneNode => 2
    case _ => 3
  }

  /** The calls before the first effect. */
  function Checks(pc: Pc): nat { if pc.CheckServer? then 1 else 0 }

  predicate Removing(w: World, name: string, pc: Pc) {
    && name in w.nodes
    && (pc.CheckServer? || pc.GonePassword? || pc.GoneUserData? || pc.GoneNode?)
    && (pc.CheckServer? ==> pc.id !in w.servers)
  }

  lemma GoneStep(w: World, name: string, pc: Pc, done: nat)
    requires Removing(w, name, pc) && GoneStage(pc) <= done < 3
    ensures var (v, next) := Step(Gone(w, name, done), name, w.nodes[name], pc);
      && v == Gone(w, name, Max(done, GoneStage(pc) + 1 - Checks(pc)))
      && GoneStage(next) == GoneStage(pc) + 1 - Checks(pc) && Checks(next) == 0
      && (next.Done? || Removing(w, name, next))
  {
    var v := Gone(w, name, done);
    match pc
    case CheckServer(_) =>
    case GonePassword => assert DropSecret(v, PasswordSecret(name)).secrets == Gone(w, name, Max(done, 1)).secrets;
    case GoneUserData => assert DropSecret(v, UserDataSecret(name)).secrets == Gone(w, name, Max(done, 2)).secrets;
    case GoneNode =>
  }

  /** The stage a run reaches with `k` calls answered from call `pc` on. */
  function Reached(pc: Pc, k: nat): nat {
    if k == 0 then GoneStage(pc) else Min(3, GoneStage(pc) + k - Checks(pc))
  }

  lemma {:induction false} GoneCalls(w: World, name: string, pc: Pc, done: nat, answers: Answers)
    requires Removing(w, name, pc) && GoneStage(pc) <= done < 3
    ensures Calls(Gone(w, name, done), name, w.nodes[name], pc, answers).0
         == Gone(w, name, Max(done, Reached(pc, Answered(answers))))
    decreases answers
  {
    if answers != [] && answers[0] {
      GoneStep(w, name, pc, done);
      var (v, next) := Step(Gone(w, name, done), name, w.nodes[name], pc);
      if next.Done? {
        assert Calls(v, name, w.nodes[name], next, answers[1..]).0 == v;
      } else {
        GoneCalls(w, name, next, Max(done, GoneStage(next)), answers[1..]);
        OneFurther(pc, next, Answered(answers[1..]));
      }
    } else {
      GoneStops(w, name, pc, done, answers);
    }
  }

  lemma GoneStops(w: World, name: string, pc: Pc, done: nat, answers: Answers)
    requires Removing(w, name, pc) && (answers == [] || !answers[0])
    ensures Calls(Gone(w, name, done), name, w.nodes[name], pc, answers).0 == Gone(w, name, done)
  {
    if answers != [] {
      assert Calls(Gone(w, name, done), name, w.nodes[name], Failed, answers[1..]).0 == Gone(w, name, done);
    }
  }

  lemma OneFurther(pc: Pc, next: Pc, k: nat)
    requires GoneStage(next) == GoneStage(pc) + 1 - Checks(pc) && Checks(next) == 0 && GoneStage(next) < 3
    ensures Reached(next, k) == Reached(pc, k + 1)
  {
  }

  // ---------- the whole way ----------

  const END := 3 + STAGES

  /** How far the removal has come: first the effects of the clean-up, then, if our finalizer still holds
      the deleted node, those of its teardown. */
  function Progress(w: World, name: string, k: nat): World
    requires name in w.nodes
  {
    if k < 3 then Gone(w, name, k)
    else if Doomed(Gone(w, name, 3), name) then Torn(Gone(w, name, 3), name, k - 3)
    else Gone(w, name, 3)
  }

  /** A run that does nothing to an orphaned node but delete it: of node-deletion, or of any controller if the
      node carries the server-id label, as bound nodes do. */
  predicate Harmless(n: Node, run: Attempt) {
    run.kind == Deletion || LABEL_SERVER_ID in n.labels
  }

  ghost predicate AllHarmless(n: Node, runs: seq<Attempt>) {
    forall i :: 0 <= i < |runs| ==> Harmless(n, runs[i])
  }

  /** On the way the node keeps its labels and its provider id, and its server stays gone. */
  lemma ProgressNode(w: World, name: string, k: nat)
    requires Orphaned(w, name)
    ensures var v, n := Progress(w, name, k), w.nodes[name];
      && BoundId(n).value !in v.servers
      && (name in v.nodes ==> v.nodes[name].labels == n.labels && v.nodes[name].providerId == n.providerId)
  {
  }

  lemma NothingFetched(v: World, name: string, id: int, answers: Answers)
    requires name in v.nodes && id !in v.servers
    ensures Calls(v, name, v.nodes[name], FetchServer(id), answers).0 == v
  {
    if answers != [] {
      var next := StepAnswered(v, name, v.nodes[name], FetchServer(id), answers[0]).1;
      assert Calls(v, name, v.nodes[name], next, answers[1..]) == (v, next);
    }
  }

  lemma OthersPassOver(w: World, name: string, k: nat, run: Attempt)
    requires Orphaned(w, name) && run.kind != Deletion && Harmless(w.nodes[name], run)
    ensures Once(Progress(w, name, k), name, run) == Progress(w, name, k)
  {
    ProgressNode(w, name, k);
    var v := Progress(w, name, k);
    if name in v.nodes && run.kind == Sync && !v.nodes[name].deleting {
      NothingFetched(v, name, BoundId(w.nodes[name]).value, run.answers);
    }
  }

  lemma ProgressAnyRun(w: World, name: string, k: nat, run: Attempt) returns (next: nat)
    requires Orphaned(w, name) && k <= END && Harmless(w.nodes[name], run)
    ensures k <= next <= END && Once(Progress(w, name, k), name, run) == Progress(w, name, next)
  {
    if run.kind == Deletion {
      next := ProgressStep(w, name, k, run);
    } else {
      OthersPassOver(w, name, k, run);
      next := k;
    }
  }

  lemma ProgressStep(w: World, name: string, k: nat, run: Attempt) returns (next: nat)
    requires Orphaned(w, name) && k <= END && run.kind == Deletion
    ensures k <= next <= END && Once(Progress(w, name, k), name, run) == Progress(w, name, next)
    ensures Complete(run) ==> if k < 3 then next >= 3 else next == END
  {
    var id := BoundId(w.nodes[name]).value;
    if Complete(run) { AllAnswered(run.answers); }
    if k < 3 {
      next := Max(k, Reached(CheckServer(id), Answered(run.answers)));
      GoneCalls(w, name, CheckServer(id), k, run.answers);
      assert Progress(w, name, 3) == Gone(w, name, 3) by { TornFrom(Gone(w, name, 3), name); }
    } else {
      var v := Gone(w, name, 3);
      if Doomed(v, name) {
        if k < END {
          RunFromStage(v, name, k - 3, run.catalog, run.answers);
          next := 3 + Max(k - 3, Min(STAGES, Answered(run.answers)));
        } else {
          TornStays(v, name, run);
          next := END;
        }
      } else {
        next := END;
        if name in v.nodes {
          IdleCalls(v, name, CheckServer(id), run.answers);
        }
      }
    }
  }

  lemma TornFrom(v: World, name: string)
    ensures Doomed(v, name) ==> Torn(v, name, 0) == v
  {
  }

  lemma {:induction false} ProgressRuns(w: World, name: string, k: nat, runs: seq<Attempt>) returns (next: nat)
    requires Orphaned(w, name) && k <= END && AllHarmless(w.nodes[name], runs)
    ensures k <= next <= END && Attempts(Progress(w, name, k), name, runs) == Progress(w, name, next)
    decreases runs
  {
    next := k;
    if runs != [] {
      next := ProgressAnyRun(w, name, k, runs[0]);
      assert forall i :: 0 <= i < |runs[1..]| ==> runs[1..][i] == runs[i + 1];
      next := ProgressRuns(w, name, next, runs[1..]);
    }
  }

  /** The world without the node, or with it released to whoever else holds it. */
  function Removed(w: World, name: string): World
    requires name in w.nodes
  {
    var n := w.nodes[name];
    PutNode(w.(secrets := w.secrets - {PasswordSecret(name), UserDataSecret(name)}), name,
            n.(deleting := true, finalizers := WithoutFinalizer(n.finalizers)))
  }

  lemma {:induction false} NoFinalizerToDrop(fs: seq<string>)
    requires FINALIZER !in fs
    ensures WithoutFinalizer(fs) == fs
  {
    if fs != [] {
      assert fs[0] in fs;
      NoFinalizerToDrop(fs[1..]);
    }
  }

  lemma EndIsRemoved(w: World, name: string)
    requires Orphaned(w, name)
    ensures Progress(w, name, END) == Removed(w, name)
  {
    var v, n := Gone(w, name, 3), w.nodes[name];
    var both := {PasswordSecret(name), UserDataSecret(name)};
    assert v.secrets == w.secrets - both;
    if HasFinalizer(n) {
      assert v.nodes[name] == n.(deleting := true);
      assert v.servers - BoundServer(n) == v.servers;
      assert Torn(v, name, STAGES).secrets == w.secrets - both;
      assert v.nodes[name := n.(deleting := true, finalizers := WithoutFinalizer(n.finalizers))]
          == w.nodes[name := n.(deleting := true, finalizers := WithoutFinalizer(n.finalizers))];
      assert v.nodes - {name} == w.nodes - {name};
    } else {
      NoFinalizerToDrop(n.finalizers);
    }
  }

  /** A node whose server is gone is removed: whatever runs of whatever controllers came before and in between,
      cut short anywhere, two complete deletion runs later its secrets are gone, and so is the node unless
      others hold it; nothing else changed. */
  lemma OrphanedNodeIsRemoved(w: World, name: string, before: seq<Attempt>, first: Attempt, between: seq<Attempt>,
      second: Attempt)
    requires Orphaned(w, name) && Complete(first) && Complete(second)
    requires AllHarmless(w.nodes[name], before) && AllHarmless(w.nodes[name], between)
    ensures Attempts(w, name, before + [first] + between + [second]) == Removed(w, name)
  {
    assert Progress(w, name, 0) == w;
    var a := ProgressRuns(w, name, 0, before);
    var b := ProgressStep(w, name, a, first);
    var c := ProgressRuns(w, name, b, between);
    var d := ProgressStep(w, name, c, second);
    assert Attempts(Progress(w, name, a), name, [first]) == Progress(w, name, b);
    assert Attempts(Progress(w, name, c), name, [second]) == Progress(w, name, d);
    AttemptsAppend(w, name, before, [first]);
    AttemptsAppend(w, name, before + [first], between);
    AttemptsAppend(w, name, before + [first] + between, [second]);
    EndIsRemoved(w, name);
  }

  // ---------- any other live node ----------

  /** Bound, or a candidate for provisioning. */
  predicate Wanted(n: Node) {
    BoundId(n).Some? || HasProvisionLabels(n)
  }

  /** The adopt annotation, though tested, makes no difference: a node it alone would qualify has been
      passed over before. */
  lemma AdoptMakesNoDifference(n: Node)
    ensures BeginDeletion(n) == BeginDeletion(n.(annotations := n.annotations - {ANNOTATION_ADOPT}))
    ensures Wanted(n) ==> KeepFinalizer(n) == KeepFinalizer(n.(annotations := n.annotations - {ANNOTATION_ADOPT}))
  {
  }

  function Guarded(w: World, name: string): World
    requires name in w.nodes
  {
    var n := w.nodes[name];
    if Wanted(n) && !HasFinalizer(n) then
      w.(nodes := w.nodes[name := n.(finalizers := n.finalizers + [FINALIZER])])
    else w
  }

  lemma EnsureGuards(w: World, name: string)
    requires name in w.nodes && !w.nodes[name].deleting && Wanted(w.nodes[name]) && !HasFinalizer(w.nodes[name])
    ensures Step(w, name, w.nodes[name], EnsureFinalizer) == (Guarded(w, name), Done)
  {
    var n := w.nodes[name];
    assert MergeMap(n.labels, map[]) == n.labels && MergeMap(n.annotations, map[]) == n.annotations;
  }

  lemma GuardCalls(w: World, name: string, answers: Answers)
    requires name in w.nodes && !w.nodes[name].deleting && Wanted(w.nodes[name])
    ensures Calls(w, name, w.nodes[name], KeepFinalizer(w.nodes[name]), answers).0
         == if answers != [] && answers[0] then Guarded(w, name) else w
  {
    var n := w.nodes[name];
    if KeepFinalizer(n).EnsureFinalizer? && answers != [] {
      EnsureGuards(w, name);
      var (v, next) := StepAnswered(w, name, n, EnsureFinalizer, answers[0]);
      assert Calls(v, name, n, next, answers[1..]).0 == v;
    }
  }

  lemma CheckedCalls(w: World, name: string, id: int, answers: Answers)
    requires name in w.nodes && !w.nodes[name].deleting && BoundId(w.nodes[name]) == Some(id) && id in w.servers
    ensures Calls(w, name, w.nodes[name], CheckServer(id), answers).0
         == if |answers| >= 2 && answers[0] && answers[1] then Guarded(w, name) else w
  {
    if answers != [] {
      var (v, next) := StepAnswered(w, name, w.nodes[name], CheckServer(id), answers[0]);
      if answers[0] {
        GuardCalls(w, name, answers[1..]);
      } else {
        assert Calls(v, name, w.nodes[name], next, answers[1..]).0 == w;
      }
    }
  }

  /** A live node whose server exists, or that has none yet: a deletion run changes nothing but to add our
      finalizer, last in the list, exactly if the node is wanted, lacks it and the run gets that far; so after
      a complete run every wanted node has it. */
  lemma LiveNodeIsGuarded(w: World, name: string, c: Catalog, answers: Answers)
    requires name in w.nodes && !w.nodes[name].deleting
    requires BoundId(w.nodes[name]).Some? ==> BoundId(w.nodes[name]).value in w.servers
    ensures var n := w.nodes[name];
      var needed := if BoundId(n).Some? then 2 else 1;
      Once(w, name, Attempt(Deletion, c, answers)) == if Answered(answers) >= needed then Guarded(w, name) else w
    ensures Wanted(w.nodes[name]) ==> HasFinalizer(Guarded(w, name).nodes[name])
  {
    var n := w.nodes[name];
    if BoundId(n).Some? {
      CheckedCalls(w, name, BoundId(n).value, answers);
    } else if Wanted(n) {
      GuardCalls(w, name, answers);
    }
  }

  // ---------- a node that others delete ----------

  lemma RefusedStep(w: World, name: string)
    requires name in w.nodes && w.nodes[name].deleting && !HasFinalizer(w.nodes[name])
    ensures Step(w, name, w.nodes[name], EnsureFinalizer) == (w, Failed)
  {
    var p := FinalizerPatch(w.nodes[name].finalizers + [FINALIZER]);
    assert FINALIZER in p.finalizers.value && !PatchAllowed(w.nodes[name], p);
  }

  lemma RefusedCall(w: World, name: string, answers: Answers)
    requires name in w.nodes && w.nodes[name].deleting && !HasFinalizer(w.nodes[name])
    ensures Calls(w, name, w.nodes[name], KeepFinalizer(w.nodes[name]), answers).0 == w
  {
    var n := w.nodes[name];
    if KeepFinalizer(n).EnsureFinalizer? && answers != [] {
      RefusedStep(w, name);
      var (v, next) := StepAnswered(w, name, n, EnsureFinalizer, answers[0]);
      assert Calls(v, name, n, next, answers[1..]) == (w, next);
    }
  }

  /** A node being deleted that only others hold: a deletion run leaves it as it is, and deletes its secrets if the
      server it is bound to is gone, as far as its calls are answered. */
  lemma OthersHoldNode(w: World, name: string, c: Catalog, answers: Answers)
    requires name in w.nodes && w.nodes[name].deleting
    requires FINALIZER !in w.nodes[name].finalizers && w.nodes[name].finalizers != []
    ensures var id := BoundId(w.nodes[name]);
      Once(w, name, Attempt(Deletion, c, answers)) ==
        if id.Some? && id.value !in w.servers then
          w.(secrets := w.secrets - (if Answered(answers) >= 2 then {PasswordSecret(name)} else {})
              - (if Answered(answers) >= 3 then {UserDataSecret(name)} else {}))
        else w
  {
    var n, id := w.nodes[name], BoundId(w.nodes[name]);
    if id.Some? && id.value !in w.servers {
      GoneCalls(w, name, CheckServer(id.value), 0, answers);
      var stage := Reached(CheckServer(id.value), Answered(answers));
      assert Gone(w, name, 0) == w && w.nodes[name := n] == w.nodes;
      assert Gone(w, name, stage).secrets == w.secrets - (if stage >= 1 then {PasswordSecret(name)} else {})
          - (if stage >= 2 then {UserDataSecret(name)} else {});
    } else if id.Some? && answers != [] {
      RefusedCall(w, name, answers[1..]);
      var (v, next) := StepAnswered(w, name, n, CheckServer(id.value), answers[0]);
      assert next.Failed? ==> Calls(v, name, n, next, answers[1..]) == (w, next);
    } else {
      RefusedCall(w, name, answers);
    }
  }

  // ---------- how a run ends ----------

  lemma TeardownEnds(w: World, name: string, n: Node, pc: Pc, answers: Answers)
    requires name in w.nodes && w.nodes[name] == n && HasFinalizer(n)
    requires pc.DeleteServer? || pc.DeletePassword? || pc.DeleteUserData? || pc.DropFinalizer?
    requires Answered(answers) >= STAGES - StageOf(pc)
    ensures Calls(w, name, n, pc, answers).1 == Done
    decreases STAGES - StageOf(pc)
  {
    AnsweredCall(w, name, n, pc, answers);
    var (v, next) := Step(w, name, n, pc);
    if !pc.DropFinalizer? {
      TeardownEnds(v, name, n, next, answers[1..]);
    }
  }

  lemma CleanUpEnds(w: World, name: string, n: Node, pc: Pc, answers: Answers)
    requires name in w.nodes && (pc.GonePassword? || pc.GoneUserData? || pc.GoneNode?)
    requires Answered(answers) >= 3 - GoneStage(pc)
    ensures Calls(w, name, n, pc, answers).1 == Done
    decreases 3 - GoneStage(pc)
  {
    AnsweredCall(w, name, n, pc, answers);
    var (v, next) := Step(w, name, n, pc);
    if !pc.GoneNode? {
      CleanUpEnds(v, name, n, next, answers[1..]);
    }
  }

  lemma GuardEnds(w: World, name: string, answers: Answers)
    requires name in w.nodes && Answered(answers) >= 1
    ensures var n := w.nodes[name];
      Calls(w, name, n, KeepFinalizer(n), answers).1 ==
        if KeepFinalizer(n) != Done && n.deleting then Failed else Done
  {
    var n := w.nodes[name];
    if KeepFinalizer(n) != Done {
      AnsweredCall(w, name, n, EnsureFinalizer, answers);
      if n.deleting { RefusedStep(w, name); }
    }
  }

  lemma CheckGoes(w: World, name: string, n: Node, id: int)
    ensures Step(w, name, n, CheckServer(id)) == (w, if id in w.servers then KeepFinalizer(n) else GonePassword)
  {
  }

  lemma BoundIsKept(n: Node)
    requires BoundId(n).Some?
    ensures KeepFinalizer(n) == if HasFinalizer(n) then Done else EnsureFinalizer
  {
  }

  lemma BoundRunEnds(w: World, name: string, id: int, answers: Answers)
    requires name in w.nodes && BoundId(w.nodes[name]) == Some(id) && Answered(answers) >= 4
    ensures var n := w.nodes[name];
      Calls(w, name, n, CheckServer(id), answers).1 ==
        if n.deleting && !HasFinalizer(n) && id in w.servers then Failed else Done
  {
    var n := w.nodes[name];
    CheckGoes(w, name, n, id);
    BoundIsKept(n);
    AnsweredCall(w, name, n, CheckServer(id), answers);
    if id in w.servers {
      GuardEnds(w, name, answers[1..]);
    } else {
      CleanUpEnds(w, name, n, GonePassword, answers[1..]);
    }
  }

  /** A deletion run with its calls answered, four at most, succeeds unless it would have to add our finalizer to a
      node that is being deleted. */
  lemma AnsweredRunEnds(w: World, name: string, c: Catalog, answers: Answers)
    requires name in w.nodes && Answered(answers) >= 4
    ensures var n := w.nodes[name];
      Calls(w, name, n, Begin(Deletion, n, c), answers).1 ==
        if n.deleting && !HasFinalizer(n) && Wanted(n) && (BoundId(n).Some? ==> BoundId(n).value in w.servers)
        then Failed else Done
  {
    var n, id := w.nodes[name], BoundId(w.nodes[name]);
    if n.deleting && HasFinalizer(n) {
      TeardownEnds(w, name, n, BeginDeletion(n), answers);
    } else if id.Some? {
      BoundRunEnds(w, name, id.value, answers);
    } else if HasFinalizer(n) || HasProvisionLabels(n) {
      GuardEnds(w, name, answers);
    }
  }
}
