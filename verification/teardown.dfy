/** Tearing a deleted node down. Regime: crash-atomic. The runs on one node follow each other, each
    starts from a fresh read, and each may stop at any call or meet an error at any call.
 */
module Teardown {
  import opened Wrappers
  import opened Text
  import opened Cluster
  import opened Lifecycle
  import opened Answering
  import opened Lists

  datatype Attempt = Attempt(kind: Kind, catalog: Catalog, answers: Answers)

  /** One run after the other; a node that is gone is not reconciled any more. */
  function Attempts(w: World, name: string, runs: seq<Attempt>): World
    decreases runs
  {
    if runs == [] then w
    else Attempts(Once(w, name, runs[0]), name, runs[1..])
  }

  function Once(w: World, name: string, run: Attempt): World {
    if name !in w.nodes then w
    else Calls(w, name, w.nodes[name], Begin(run.kind, w.nodes[name], run.catalog), run.answers).0
  }

  predicate Doomed(w: World, name: string) {
    name in w.nodes && w.nodes[name].deleting && HasFinalizer(w.nodes[name])
  }

  // ---------- the stages of a teardown ----------

  const STAGES := 4

  function BoundServer(n: Node): set<int> {
    if BoundId(n).Some? then {BoundId(n).value} else {}
  }

  /** The world once the first `stage` effects of tearing `name` down have happened: the server,
      the password secret, the user-data secret, the finalizer. */
  function Torn(w: World, name: string, stage: nat): World
    requires name in w.nodes
  {
    var n := w.nodes[name];
    var secrets := (if stage >= 2 then {PasswordSecret(name)} else {})
        + (if stage >= 3 then {UserDataSecret(name)} else {});
    var v := w.(servers := if stage >= 1 then w.servers - BoundServer(n) else w.servers,
                secrets := w.secrets - secrets);
    if stage >= STAGES then PutNode(v, name, n.(finalizers := WithoutFinalizer(n.finalizers))) else v
  }

  /** The effects that have happened when a run reaches its call `pc`. */
  function StageOf(pc: Pc): nat {
    match pc
    case DeleteServer(_) => 0
    case DeletePassword => 1
    case DeleteUserData => 2
    case DropFinalizer => 3
    case _ => STAGES
  }

  predicate TearingDown(w: World, name: string, pc: Pc) {
    && Doomed(w, name)
    && (pc.DeleteServer? || pc.DeletePassword? || pc.DeleteUserData? || pc.DropFinalizer?)
    && (pc.DeleteServer? ==> BoundId(w.nodes[name]) == Some(pc.id))
  }

  lemma TeardownStep(w: World, name: string, pc: Pc, done: nat)
    requires TearingDown(w, name, pc) && StageOf(pc) <= done < STAGES
    ensures var (v, next) := Step(Torn(w, name, done), name, w.nodes[name], pc);
      && v == Torn(w, name, Max(done, StageOf(pc) + 1))
      && StageOf(next) == StageOf(pc) + 1
      && (next.Done? || TearingDown(w, name, next))
  {
    var n, v := w.nodes[name], Torn(w, name, done);
    match pc
    case DeleteServer(id) =>
    case DeletePassword =>
      assert DropSecret(v, PasswordSecret(name)).secrets == Torn(w, name, Max(done, 2)).secrets;
    case DeleteUserData =>
      assert DropSecret(v, UserDataSecret(name)).secrets == Torn(w, name, Max(done, 3)).secrets;
    case DropFinalizer =>
      var p := FinalizerPatch(WithoutFinalizer(n.finalizers));
      assert MergeMap(n.labels, map[]) == n.labels && MergeMap(n.annotations, map[]) == n.annotations;
      assert ApplyPatch(n, p) == n.(finalizers := WithoutFinalizer(n.finalizers));
  }

  lemma {:induction false} TeardownCalls(w: World, name: string, pc: Pc, done: nat, answers: Answers)
    requires TearingDown(w, name, pc) && StageOf(pc) <= done < STAGES
    ensures Calls(Torn(w, name, done), name, w.nodes[name], pc, answers).0
         == Torn(w, name, Max(done, Min(STAGES, StageOf(pc) + Answered(answers))))
    decreases answers
  {
    var v, n := Torn(w, name, done), w.nodes[name];
    if Answered(answers) >= 1 {
      AnsweredCall(v, name, n, pc, answers);
      TeardownStep(w, name, pc, done);
      var next, reached := Step(v, name, n, pc).1, Max(done, StageOf(pc) + 1);
      if reached < STAGES {
        TeardownCalls(w, name, next, reached, answers[1..]);
      }
    } else if answers != [] {
      ErrorEndsRun(v, name, n, pc, answers);
    }
  }

  /** A run that meets the world at some stage with `k` of its calls answered before one is not
      takes it to stage `k`, or leaves it where it was if it was further already. */
  lemma RunFromStage(w: World, name: string, done: nat, c: Catalog, answers: Answers)
    requires Doomed(w, name) && done < STAGES
    ensures var start := if BoundId(w.nodes[name]).Some? then 0 else 1;
      Once(Torn(w, name, done), name, Attempt(Deletion, c, answers))
      == Torn(w, name, Max(done, Min(STAGES, start + Answered(answers))))
  {
    var n := w.nodes[name];
    var pc := BeginDeletion(n);
    if BoundId(n).None? {
      assert Torn(w, name, 0) == Torn(w, name, 1);
      TeardownCalls(w, name, pc, Max(done, 1), answers);
    } else {
      TeardownCalls(w, name, pc, done, answers);
    }
  }

  /** Provision, sync and, unless an adoption is due, bind runs do nothing to a node being deleted. */
  lemma OthersStandBack(n: Node, kind: Kind, c: Catalog)
    requires n.deleting && kind != Deletion && (kind == Bind ==> BeginBind(n) == Done)
    ensures Begin(kind, n, c) == Done
  {
  }

  /** After the last stage every further run changes nothing: the node is gone, or it waits for
      other finalizers, to which the API server refuses to add ours again. */
  lemma TornStays(w: World, name: string, run: Attempt)
    requires Doomed(w, name) && (run.kind == Bind ==> BeginBind(w.nodes[name]) == Done)
    ensures Once(Torn(w, name, STAGES), name, run) == Torn(w, name, STAGES)
  {
    var v := Torn(w, name, STAGES);
    if name in v.nodes {
      var n := v.nodes[name];
      var pc := Begin(run.kind, n, run.catalog);
      if run.kind != Deletion {
        OthersStandBack(n, run.kind, run.catalog);
      } else {
        assert pc == Done || pc == EnsureFinalizer || (pc.CheckServer? && pc.id !in v.servers);
        IdleCalls(v, name, pc, run.answers);
      }
    }
  }

  /** The runs that can still start on a torn-down node: every call leaves the world as it is. */
  predicate Idle(v: World, name: string, pc: Pc) {
    && name in v.nodes && v.nodes[name].deleting && !HasFinalizer(v.nodes[name]) && v.nodes[name].finalizers != []
    && PasswordSecret(name) !in v.secrets && UserDataSecret(name) !in v.secrets
    && (Ended(pc) || pc.EnsureFinalizer? || pc.GonePassword? || pc.GoneUserData? || pc.GoneNode?
        || (pc.CheckServer? && pc.id !in v.servers))
  }

  lemma {:induction false} IdleCalls(v: World, name: string, pc: Pc, answers: Answers)
    requires Idle(v, name, pc)
    ensures Calls(v, name, v.nodes[name], pc, answers).0 == v
    decreases answers
  {
    if !Ended(pc) && answers != [] {
      IdleStep(v, name, pc, answers[0]);
      var (u, next) := StepAnswered(v, name, v.nodes[name], pc, answers[0]);
      IdleCalls(v, name, next, answers[1..]);
    }
  }

  lemma IdleStep(v: World, name: string, pc: Pc, answered: bool)
    requires Idle(v, name, pc) && !Ended(pc)
    ensures var (u, next) := StepAnswered(v, name, v.nodes[name], pc, answered); u == v && Idle(v, name, next)
  {
    if answered {
      match pc
      case EnsureFinalizer =>
        var p := FinalizerPatch(v.nodes[name].finalizers + [FINALIZER]);
        assert FINALIZER in p.finalizers.value && !PatchAllowed(v.nodes[name], p);
      case GonePassword => assert v.secrets - {PasswordSecret(name)} == v.secrets;
      case GoneUserData => assert v.secrets - {UserDataSecret(name)} == v.secrets;
      case GoneNode => assert v.nodes[name := v.nodes[name].(deleting := true)] == v.nodes;
      case CheckServer(_) =>
    }
  }

  // ---------- any number of runs ----------

  ghost predicate NoAdoption(n: Node, runs: seq<Attempt>) {
    forall i :: 0 <= i < |runs| && runs[i].kind == Bind ==> BeginBind(n) == Done
  }

  /** Whatever is cut short, the world is always at some stage and never goes back. */
  lemma {:induction false} AlwaysAtAStage(w: World, name: string, done: nat, runs: seq<Attempt>) returns (stage: nat)
    requires Doomed(w, name) && done <= STAGES && NoAdoption(w.nodes[name], runs)
    ensures done <= stage <= STAGES && Attempts(Torn(w, name, done), name, runs) == Torn(w, name, stage)
    decreases runs
  {
    if runs == [] {
      stage := done;
    } else {
      var next: nat := done;
      if done == STAGES {
        TornStays(w, name, runs[0]);
      } else if runs[0].kind == Deletion {
        RunFromStage(w, name, done, runs[0].catalog, runs[0].answers);
        next := Max(done, Min(STAGES, (if BoundId(w.nodes[name]).Some? then 0 else 1) + Answered(runs[0].answers)));
      } else {
        OthersStandBack(w.nodes[name], runs[0].kind, runs[0].catalog);
      }
      assert NoAdoption(w.nodes[name], runs[1..]) by {
        assert forall i :: 0 <= i < |runs[1..]| ==> runs[1..][i] == runs[i + 1];
      }
      stage := AlwaysAtAStage(w, name, next, runs[1..]);
    }
  }

  predicate Complete(run: Attempt) {
    run.kind == Deletion && |run.answers| >= STAGES && forall i :: 0 <= i < |run.answers| ==> run.answers[i]
  }

  lemma {:induction false} AttemptsAppend(w: World, name: string, runs: seq<Attempt>, more: seq<Attempt>)
    ensures Attempts(w, name, runs + more) == Attempts(Attempts(w, name, runs), name, more)
    decreases runs
  {
    if runs == [] {
      assert runs + more == more;
    } else {
      assert (runs + more)[1..] == runs[1..] + more;
      AttemptsAppend(Once(w, name, runs[0]), name, runs[1..], more);
    }
  }

  /** Crash safety: however often the teardown is cut short, one complete run later the world is
      as one uninterrupted teardown leaves it, and stays so through all further runs. */
  lemma TeardownConverges(w: World, name: string, before: seq<Attempt>, complete: Attempt, after: seq<Attempt>)
    requires Doomed(w, name) && Complete(complete)
    requires NoAdoption(w.nodes[name], before) && NoAdoption(w.nodes[name], after)
    ensures Attempts(w, name, before + [complete] + after) == Torn(w, name, STAGES)
  {
    assert Torn(w, name, 0) == w;
    var stage := AlwaysAtAStage(w, name, 0, before);
    var v := Torn(w, name, stage);
    if stage == STAGES {
      TornStays(w, name, complete);
    } else {
      AllAnswered(complete.answers);
      RunFromStage(w, name, stage, complete.catalog, complete.answers);
    }
    assert Attempts(v, name, [complete]) == Once(v, name, complete);
    AttemptsAppend(w, name, before, [complete]);
    AttemptsAppend(w, name, before + [complete], after);
    var last := AlwaysAtAStage(w, name, STAGES, after);
  }

  // ---------- what a finished teardown has done ----------

  lemma {:induction false} FinalizersSelected(fs: seq<string>) returns (at: seq<nat>)
    ensures Selected(fs, WithoutFinalizer(fs), f => f == FINALIZER, at)
  {
    if fs == [] {
      at := [];
    } else {
      var rest := FinalizersSelected(fs[1..]);
      at := SelectedOneMore(fs, WithoutFinalizer(fs[1..]), f => f == FINALIZER, rest);
    }
  }

  /** A finished teardown of the cloud side: the bound server and both of the node's secrets are
      gone; no other server, no other node's secret was touched. */
  lemma TornDown(w: World, name: string)
    requires Doomed(w, name)
    ensures var v, n := Torn(w, name, STAGES), w.nodes[name];
      && (BoundId(n).Some? ==> BoundId(n).value !in v.servers)
      && (forall id :: BoundId(n) != Some(id) ==>
            (id in v.servers <==> id in w.servers) && (id in v.servers ==> v.servers[id] == w.servers[id]))
      && PasswordSecret(name) !in v.secrets && UserDataSecret(name) !in v.secrets
      && (forall other :: other != name ==>
            && (PasswordSecret(other) in v.secrets <==> PasswordSecret(other) in w.secrets)
            && (UserDataSecret(other) in v.secrets <==> UserDataSecret(other) in w.secrets))
  {
    var own := {PasswordSecret(name), UserDataSecret(name)};
    forall other | other != name ensures PasswordSecret(other) !in own && UserDataSecret(other) !in own {
      SecretNamesInvert(name);
      SecretNamesInvert(other);
    }
    assert Torn(w, name, STAGES).secrets == w.secrets - own;
  }

  /** A finished teardown of the node: no other node was touched; of the node's finalizers only
      ours is gone, the others kept in order, and the node with it if there was no other. */
  lemma NodeReleased(w: World, name: string) returns (at: seq<nat>)
    requires Doomed(w, name)
    ensures var v, n := Torn(w, name, STAGES), w.nodes[name];
      && (forall other :: other != name ==>
            (other in v.nodes <==> other in w.nodes) && (other in v.nodes ==> v.nodes[other] == w.nodes[other]))
      && (name in v.nodes <==> exists f :: f in n.finalizers && f != FINALIZER)
      && (name in v.nodes ==>
            && v.nodes[name] == n.(finalizers := v.nodes[name].finalizers)
            && Selected(n.finalizers, v.nodes[name].finalizers, f => f == FINALIZER, at))
  {
    var n := w.nodes[name];
    at := FinalizersSelected(n.finalizers);
    var kept := WithoutFinalizer(n.finalizers);
    if kept != [] {
      assert kept[0] in kept;
    } else {
      assert forall f :: f in n.finalizers && f != FINALIZER ==> f in kept;
    }
  }

  /** At no point of any such history is the finalizer dropped, or the node gone, while the server it
      is bound to exists. */
  lemma FinalizerOutlivesServer(w: World, name: string, runs: seq<Attempt>)
    requires Doomed(w, name) && NoAdoption(w.nodes[name], runs) && BoundId(w.nodes[name]).Some?
    requires var v := Attempts(w, name, runs); BoundId(w.nodes[name]).value in v.servers
    ensures var v := Attempts(w, name, runs); name in v.nodes && v.nodes[name] == w.nodes[name]
  {
    assert Torn(w, name, 0) == w;
    var stage := AlwaysAtAStage(w, name, 0, runs);
  }
}
