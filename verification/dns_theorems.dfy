/** POST followed by GET refines the change set; a POST that was cut short can be sent again. */
module DnsTheorems {
  import opened Wrappers
  import opened Text
  import opened DnsNames
  import opened DnsRecords
  import opened DnsStore
  import opened DnsAcceptance
  import opened DnsPlan

  /** The snapshot lists the zones of all update and delete entries as they are in the store. */
  ghost predicate Fits(zones: seq<string>, s: Store, snapshot: Snapshot, items: seq<Item>) {
    forall i :: 0 <= i < |items| ==> FitsItem(zones, s, snapshot, items[i])
  }

  lemma PlanActs(zones: seq<string>, s: Store, snapshot: Snapshot, items: seq<Item>, op: Op) returns (i: nat)
    requires WellFormed(zones, s) && CanonicalItems(items) && Fits(zones, s, snapshot, items)
    requires op in PlanOf(zones, snapshot, items).ops
    ensures i < |items| && HasCall(zones, snapshot, items[i], op)
    ensures op.zone in zones && KeyFor(zones, Subject(items[i])).Some?
    ensures ActsOn(s, op, KeyFor(zones, Subject(items[i])).value)
    ensures op.Delete? ==> op.id < s.nextId
  {
    i := PlanBlocks(zones, snapshot, items, op);
    BlockActsOnKey(zones, s, snapshot, items[i], op);
  }

  /** With distinct keys, the calls that act on an entry's key are that entry's own. */
  lemma OwnCalls(zones: seq<string>, s: Store, snapshot: Snapshot, items: seq<Item>, op: Op, key: Key) returns (i: nat)
    requires WellFormed(zones, s) && CanonicalItems(items) && Fits(zones, s, snapshot, items)
    requires op in PlanOf(zones, snapshot, items).ops && ActsOn(s, op, key)
    ensures ItemFor(zones, items, i, key)
    ensures HasCall(zones, snapshot, items[i], op)
  {
    i := PlanActs(zones, s, snapshot, items, op);
    OneKeyPerCall(s, op, key, KeyFor(zones, Subject(items[i])).value);
  }

  lemma OneItemPerKey(zones: seq<string>, items: seq<Item>, i: nat, j: nat, key: Key)
    requires DistinctKeys(zones, items) && ItemFor(zones, items, i, key) && ItemFor(zones, items, j, key)
    ensures i == j
  {
  }

  lemma PlanIsSafe(zones: seq<string>, s: Store, snapshot: Snapshot, items: seq<Item>)
    requires WellFormed(zones, s) && CanonicalItems(items) && Fits(zones, s, snapshot, items)
    ensures forall z, id :: Delete(z, id) in PlanOf(zones, snapshot, items).ops ==> id < s.nextId
    ensures forall op :: op in PlanOf(zones, snapshot, items).ops ==> op.zone in s.records
  {
    forall op | op in PlanOf(zones, snapshot, items).ops
      ensures op.zone in s.records && (op.Delete? ==> op.id < s.nextId)
    {
      var _ := PlanActs(zones, s, snapshot, items, op);
    }
  }

  /** A key no entry names keeps its targets through any part of the plan. */
  lemma UntouchedKey(zones: seq<string>, s: Store, snapshot: Snapshot, items: seq<Item>, k: nat, key: Key)
    requires WellFormed(zones, s) && CanonicalItems(items) && Fits(zones, s, snapshot, items)
    requires k <= |PlanOf(zones, snapshot, items).ops|
    requires forall i :: !ItemFor(zones, items, i, key)
    ensures Targets(Run(s, PlanOf(zones, snapshot, items).ops[..k]), key) == Targets(s, key)
  {
    var all := PlanOf(zones, snapshot, items).ops;
    var ops := all[..k];
    PlanIsSafe(zones, s, snapshot, items);
    forall op | op in ops && ActsOn(s, op, key) ensures false {
      assert op in all;
      var i := OwnCalls(zones, s, snapshot, items, op, key);
      assert false;
    }
    forall data ensures data in Targets(Run(s, ops), key) <==> data in Targets(s, key) {
      RunTargets(s, ops, key, data);
      TargetsStored(s, key, data);
      if z, r :| In(s, z, r) && KeyOf(z, r) == key && r.data == data {
        assert !ActsOn(s, Delete(z, r.id), key) || Delete(z, r.id) !in ops;
        assert ActsOn(s, Delete(z, r.id), key);
      }
    }
  }

  /** Part of the plan under an entry's key: nothing kept is lost, nothing strange appears; at the
      end exactly what the entry asks for is stored. */
  lemma TouchedKey(zones: seq<string>, s: Store, snapshot: Snapshot, items: seq<Item>, k: nat, i: nat, data: string)
    requires WellFormed(zones, s) && CanonicalItems(items) && Fits(zones, s, snapshot, items)
    requires DistinctKeys(zones, items) && PlanOf(zones, snapshot, items).complete
    requires k <= |PlanOf(zones, snapshot, items).ops| && i < |items|
    ensures KeyFor(zones, Subject(items[i])).Some?
    ensures var key, ops := KeyFor(zones, Subject(items[i])).value, PlanOf(zones, snapshot, items).ops[..k];
      var stored := data in Targets(s, key);
      && (stored && !Removed(items[i], data) ==> data in Targets(Run(s, ops), key))
      && (data in Targets(Run(s, ops), key) ==> stored || data in Added(items[i]))
      && (k == |PlanOf(zones, snapshot, items).ops| ==>
            (data in Targets(Run(s, ops), key) <==> data in Asked(items[i], Targets(s, key))))
  {
    var item, all := items[i], PlanOf(zones, snapshot, items).ops;
    var ops := all[..k];
    PlanIsSafe(zones, s, snapshot, items);
    BlockExists(zones, snapshot, items, i);
    forall op | HasCall(zones, snapshot, item, op) ensures op in all {
      BlockInPlan(zones, snapshot, items, i, op);
    }
    BlockCreates(zones, snapshot, item, data);
    var key, block := KeyFor(zones, Subject(item)).value, Block(zones, snapshot, item).value;
    assert ItemFor(zones, items, i, key);
    RunTargets(s, ops, key, data);
    TargetsStored(s, key, data);
    AskedIs(item, Targets(s, key), data);
    forall op | op in ops && ActsOn(s, op, key) ensures op in block {
      assert op in all;
      var j := OwnCalls(zones, s, snapshot, items, op, key);
      OneItemPerKey(zones, items, i, j, key);
    }
    assert CreatedData(ops, key, data) ==> CreatedData(block, key, data);
    forall z, r | In(s, z, r) && KeyOf(z, r) == key
      ensures Delete(z, r.id) in ops ==> Removed(item, r.data)
      ensures Removed(item, r.data) ==> Delete(z, r.id) in all
    {
      BlockDeletes(zones, s, snapshot, item, z, r);
      assert ActsOn(s, Delete(z, r.id), key);
    }
    if k == |all| {
      assert ops == all;
      assert CreatedData(block, key, data) ==> CreatedData(ops, key, data);
    }
  }

  /** The effect of the first `k` calls of a complete plan on every key. */
  lemma PlanEffect(zones: seq<string>, s: Store, snapshot: Snapshot, items: seq<Item>, k: nat, key: Key)
    requires WellFormed(zones, s) && CanonicalItems(items) && Fits(zones, s, snapshot, items)
    requires DistinctKeys(zones, items) && PlanOf(zones, snapshot, items).complete
    requires k <= |PlanOf(zones, snapshot, items).ops|
    ensures var t := Run(s, PlanOf(zones, snapshot, items).ops[..k]);
      && Desired(zones, items, key, Targets(t, key)) == Desired(zones, items, key, Targets(s, key))
      && (k == |PlanOf(zones, snapshot, items).ops| ==>
            Targets(t, key) == Desired(zones, items, key, Targets(s, key)))
  {
    if i :| ItemFor(zones, items, i, key) {
      ItemEffect(zones, s, snapshot, items, k, i, key);
    } else {
      UntouchedKey(zones, s, snapshot, items, k, key);
    }
  }

  lemma ItemEffect(zones: seq<string>, s: Store, snapshot: Snapshot, items: seq<Item>, k: nat, i: nat, key: Key)
    requires WellFormed(zones, s) && CanonicalItems(items) && Fits(zones, s, snapshot, items)
    requires DistinctKeys(zones, items) && PlanOf(zones, snapshot, items).complete
    requires k <= |PlanOf(zones, snapshot, items).ops| && ItemFor(zones, items, i, key)
    ensures var t := Run(s, PlanOf(zones, snapshot, items).ops[..k]);
      && Desired(zones, items, key, Targets(t, key)) == Desired(zones, items, key, Targets(s, key))
      && (k == |PlanOf(zones, snapshot, items).ops| ==>
            Targets(t, key) == Desired(zones, items, key, Targets(s, key)))
  {
    var now, later := Targets(s, key), Targets(Run(s, PlanOf(zones, snapshot, items).ops[..k]), key);
    DesiredIs(zones, items, i, key, now);
    DesiredIs(zones, items, i, key, later);
    forall data
      ensures data in Asked(items[i], later) <==> data in Asked(items[i], now)
      ensures k == |PlanOf(zones, snapshot, items).ops| ==> (data in later <==> data in Asked(items[i], now))
    {
      TouchedKey(zones, s, snapshot, items, k, i, data);
      AskedIs(items[i], now, data);
      AskedIs(items[i], later, data);
    }
  }

  lemma DesiredIs(zones: seq<string>, items: seq<Item>, i: nat, key: Key, stored: set<string>)
    requires DistinctKeys(zones, items) && ItemFor(zones, items, i, key)
    ensures Desired(zones, items, key, stored) == Asked(items[i], stored)
  {
    forall j | ItemFor(zones, items, j, key) ensures j == i {
      OneItemPerKey(zones, items, i, j, key);
    }
  }

  // ---------- well-formedness ----------

  /** Any part of any plan keeps the store well-formed, complete or not, keys distinct or not. */
  lemma PlanKeepsWellFormed(zones: seq<string>, s: Store, snapshot: Snapshot, items: seq<Item>, k: nat)
    requires WellFormed(zones, s) && CanonicalItems(items)
    requires k <= |PlanOf(zones, snapshot, items).ops|
    ensures WellFormed(zones, Run(s, PlanOf(zones, snapshot, items).ops[..k]))
  {
    var all := PlanOf(zones, snapshot, items).ops;
    var ops := all[..k];
    RunIds(s, ops);
    forall z, r | In(Run(s, ops), z, r) ensures WellPlaced(zones, z, r) {
      RecordsComeFrom(s, ops, z, r);
      if !In(s, z, r) {
        var op :| op in ops && MadeBy(r, z, op);
        assert op in all;
        var i := PlanBlocks(zones, snapshot, items, op);
        assert CanonicalItem(items[i]);
        CreatesInPlace(zones, snapshot, items[i], op);
        NormalZonesAreSafe(zones);
        SplitStable(Subject(items[i]).dnsName, zones);
      }
    }
  }

  // ---------- no call is refused ----------

  lemma {:induction false} DeleteOpsOnce(zone: string, records: seq<DomainRecord>, name: string,
                                         recordType: string, all: bool, data: set<string>)
    requires DistinctIds(records)
    ensures Distinct(DeleteOps(zone, records, name, recordType, all, data))
  {
    if records != [] {
      assert forall i :: 0 < i < |records| ==> records[1..][i - 1] == records[i];
      DeleteOpsOnce(zone, records[1..], name, recordType, all, data);
      var rest := DeleteOps(zone, records[1..], name, recordType, all, data);
      forall r | r in records[1..] ensures r.id != records[0].id {
        var i :| 0 <= i < |records[1..]| && records[1..][i] == r;
        assert records[i + 1] == r;
      }
      DistinctAppend([Delete(zone, records[0].id)], rest);
    }
  }

  /** No delete call occurs twice. */
  ghost predicate Distinct(ops: seq<Op>) {
    forall i, j :: 0 <= i < j < |ops| && ops[i].Delete? ==> ops[i] != ops[j]
  }

  lemma DistinctAppend(a: seq<Op>, b: seq<Op>)
    requires Distinct(a) && Distinct(b)
    requires forall op :: op in a && op.Delete? ==> op !in b
    ensures Distinct(a + b)
  {
    forall i, j | 0 <= i < j < |a + b| && (a + b)[i].Delete? ensures (a + b)[i] != (a + b)[j] {
      if i < |a| <= j {
        assert a[i] in a && b[j - |a|] in b;
      }
    }
  }

  lemma {:induction false} DeletesOnce(zones: seq<string>, s: Store, snapshot: Snapshot, items: seq<Item>)
    requires WellFormed(zones, s) && CanonicalItems(items) && Fits(zones, s, snapshot, items)
    requires DistinctKeys(zones, items)
    ensures Distinct(PlanOf(zones, snapshot, items).ops)
    decreases items
  {
    if items != [] && Block(zones, snapshot, items[0]).Some? {
      var rest := items[1..];
      assert forall i :: 0 <= i < |rest| ==> rest[i] == items[i + 1];
      DeletesOnce(zones, s, snapshot, rest);
      var block := Block(zones, snapshot, items[0]).value;
      BlockDeletesOnce(zones, s, snapshot, items[0]);
      forall op | op in block && op.Delete? ensures op !in PlanOf(zones, snapshot, rest).ops {
        assert HasCall(zones, snapshot, items[0], op);
        BlockActsOnKey(zones, s, snapshot, items[0], op);
        if op in PlanOf(zones, snapshot, rest).ops {
          var key := KeyFor(zones, Subject(items[0])).value;
          var j := OwnCalls(zones, s, snapshot, rest, op, key);
          OneItemPerKey(zones, items, 0, j + 1, key);
          assert false;
        }
      }
      DistinctAppend(block, PlanOf(zones, snapshot, rest).ops);
    }
  }

  lemma BlockDeletesOnce(zones: seq<string>, s: Store, snapshot: Snapshot, item: Item)
    requires WellFormed(zones, s) && Block(zones, snapshot, item).Some? && FitsItem(zones, s, snapshot, item)
    ensures Distinct(Block(zones, snapshot, item).value)
  {
    var (zone, name) := MapName(Subject(item).dnsName, zones).value;
    match item
    case AddItem(e) =>
    case UpdateItem(was, now, walk) =>
      DeleteOpsOnce(zone, Listing(s, zone), name, was.recordType, false, ToDelete(was, now));
      DistinctAppend(CreateOps(zone, name, now, EndpointNumbers(now).value, walk),
                     DeleteOps(zone, Listing(s, zone), name, was.recordType, false, ToDelete(was, now)));
    case DeleteItem(e) =>
      DeleteOpsOnce(zone, Listing(s, zone), name, e.recordType, e.targets == [], set t | t in e.targets);
  }

  /** The service refuses none of the plan's calls, so only an outage cuts a POST short. */
  lemma NothingRefused(zones: seq<string>, s: Store, snapshot: Snapshot, items: seq<Item>, k: nat)
    requires WellFormed(zones, s) && CanonicalItems(items) && Fits(zones, s, snapshot, items)
    requires DistinctKeys(zones, items) && k < |PlanOf(zones, snapshot, items).ops|
    ensures var ops := PlanOf(zones, snapshot, items).ops; Possible(Run(s, ops[..k]), ops[k])
  {
    var ops := PlanOf(zones, snapshot, items).ops;
    DeletesOnce(zones, s, snapshot, items);
    var op := ops[k];
    var i := PlanActs(zones, s, snapshot, items, op);
    RunIds(s, ops[..k]);
    if op.Delete? {
      var r :| In(s, op.zone, r) && r.id == op.id;
      assert Delete(op.zone, r.id) == op;
      UndeletedStays(s, ops[..k], op.zone, r);
    }
  }

  // ---------- POST ----------

  /** What the theorems ask of a change set: canonical types, entries with pairwise distinct keys,
      and update lists that agree on the type at each position. */
  ghost predicate GoodChanges(zones: seq<string>, c: Changes, walks: seq<seq<string>>) {
    && WalksOk(c, walks)
    && CanonicalItems(Items(c, walks))
    && DistinctKeys(zones, Items(c, walks))
  }

  lemma PostFits(zones: seq<string>, s: Store, c: Changes, walks: seq<seq<string>>)
    requires |walks| == Min(|c.updateOld|, |c.updateNew|) && AllMapped(zones, NeedingSnapshot(c))
    ensures Fits(zones, s, SnapshotOf(zones, s, c), Items(c, walks))
  {
    var items := Items(c, walks);
    forall i | 0 <= i < |items| ensures FitsItem(zones, s, SnapshotOf(zones, s, c), items[i]) {
      if !items[i].AddItem? {
        SnapshotCovers(zones, s, c, walks, items[i]);
      }
    }
  }

  /** POST keeps the store well-formed, however far it gets. */
  lemma PostKeepsWellFormed(zones: seq<string>, s: Store, c: Changes, walks: seq<seq<string>>, k: nat)
    requires WellFormed(zones, s) && WalksOk(c, walks) && CanonicalItems(Items(c, walks))
    requires k <= |PostPlan(zones, s, c, walks).ops|
    ensures WellFormed(zones, Run(s, PostPlan(zones, s, c, walks).ops[..k]))
  {
    if AllMapped(zones, NeedingSnapshot(c)) {
      PlanKeepsWellFormed(zones, s, SnapshotOf(zones, s, c), Items(c, walks), k);
    }
  }

  /** The first `k` calls of a POST, on every key: they do not change what the change set asks
      for, and all of them together establish it. */
  lemma PostEffect(zones: seq<string>, s: Store, c: Changes, walks: seq<seq<string>>, k: nat, key: Key)
    requires WellFormed(zones, s) && GoodChanges(zones, c, walks)
    requires PostPlan(zones, s, c, walks).complete && k <= |PostPlan(zones, s, c, walks).ops|
    ensures var t, items := Run(s, PostPlan(zones, s, c, walks).ops[..k]), Items(c, walks);
      && Desired(zones, items, key, Targets(t, key)) == Desired(zones, items, key, Targets(s, key))
      && (k == |PostPlan(zones, s, c, walks).ops| ==>
            Targets(t, key) == Desired(zones, items, key, Targets(s, key)))
  {
    PostFits(zones, s, c, walks);
    PlanEffect(zones, s, SnapshotOf(zones, s, c), Items(c, walks), k, key);
  }

  lemma PostNotRefused(zones: seq<string>, s: Store, c: Changes, walks: seq<seq<string>>, k: nat)
    requires WellFormed(zones, s) && GoodChanges(zones, c, walks)
    requires k < |PostPlan(zones, s, c, walks).ops|
    ensures var ops := PostPlan(zones, s, c, walks).ops; Possible(Run(s, ops[..k]), ops[k])
  {
    PostFits(zones, s, c, walks);
    NothingRefused(zones, s, SnapshotOf(zones, s, c), Items(c, walks), k);
  }

  lemma PostNeverRefused(zones: seq<string>, s: Store, c: Changes, walks: seq<seq<string>>)
    requires WellFormed(zones, s) && GoodChanges(zones, c, walks)
    ensures NeverRefused(s, PostPlan(zones, s, c, walks).ops)
  {
    forall k | 0 <= k < |PostPlan(zones, s, c, walks).ops|
      ensures Possible(Run(s, PostPlan(zones, s, c, walks).ops[..k]), PostPlan(zones, s, c, walks).ops[k])
    {
      PostNotRefused(zones, s, c, walks, k);
    }
  }

  /** A POST on a well-formed store gets exactly as far as the service answers, and succeeds exactly if the
      change set is acceptable and the service answers for all its calls. */
  lemma PostRunsThrough(zones: seq<string>, s: Store, c: Changes, walks: seq<seq<string>>, budget: nat)
    requires WellFormed(zones, s) && GoodChanges(zones, c, walks)
    ensures var plan := PostPlan(zones, s, c, walks);
      && OnlyOutagesStop(s, plan, budget)
      && (Outcome(s, plan.ops, plan.complete, budget).2 <==> Acceptable(zones, c) && |plan.ops| <= budget)
  {
    var plan := PostPlan(zones, s, c, walks);
    PostNeverRefused(zones, s, c, walks);
    AllPossible(s, plan.ops, plan.complete, budget);
    CompleteExact(zones, s, c, walks);
  }

  /** The calls that succeed are the first `budget` ones. */
  ghost predicate OnlyOutagesStop(s: Store, plan: Plan, budget: nat) {
    Outcome(s, plan.ops, plan.complete, budget)
      == (Run(s, plan.ops[..Min(budget, |plan.ops|)]),
          budget - Min(budget, |plan.ops|),
          plan.complete && |plan.ops| <= budget)
  }

  ghost predicate NeverRefused(s: Store, ops: seq<Op>) {
    forall k :: 0 <= k < |ops| ==> Possible(Run(s, ops[..k]), ops[k])
  }

  lemma NeverRefusedRest(s: Store, ops: seq<Op>)
    requires ops != [] && NeverRefused(s, ops)
    ensures Possible(s, ops[0]) && NeverRefused(Step(s, ops[0]), ops[1..])
  {
    assert Possible(Run(s, ops[..0]), ops[0]);
    var rest := ops[1..];
    forall k | 0 <= k < |rest| ensures Possible(Run(Step(s, ops[0]), rest[..k]), rest[k]) {
      assert ops[..k + 1][1..] == rest[..k];
      assert Possible(Run(s, ops[..k + 1]), ops[k + 1]);
    }
  }

  lemma {:induction false} AllPossible(s: Store, ops: seq<Op>, complete: bool, budget: nat)
    requires NeverRefused(s, ops)
    ensures OnlyOutagesStop(s, Plan(ops, complete), budget)
    decreases ops
  {
    if ops != [] {
      NeverRefusedRest(s, ops);
      if budget > 0 {
        AllPossible(Step(s, ops[0]), ops[1..], complete, budget - 1);
        var m := Min(budget - 1, |ops| - 1);
        assert ops[..m + 1][1..] == ops[1..][..m];
      }
    }
  }

  // ---------- the two end-to-end theorems ----------

  lemma PostOnItem(zones: seq<string>, s: Store, c: Changes, walks: seq<seq<string>>, i: nat, key: Key)
    requires WellFormed(zones, s) && GoodChanges(zones, c, walks)
    requires PostPlan(zones, s, c, walks).complete
    requires ItemFor(zones, Items(c, walks), i, key)
    ensures Targets(Run(s, PostPlan(zones, s, c, walks).ops), key) == Asked(Items(c, walks)[i], Targets(s, key))
  {
    var plan := PostPlan(zones, s, c, walks);
    assert plan.ops[..|plan.ops|] == plan.ops;
    PostEffect(zones, s, c, walks, |plan.ops|, key);
    DesiredIs(zones, Items(c, walks), i, key, Targets(s, key));
  }

  lemma UpdateAt(zones: seq<string>, c: Changes, walks: seq<seq<string>>, i: nat, key: Key)
    requires |walks| == Min(|c.updateOld|, |c.updateNew|) && i < |walks| && KeyFor(zones, c.updateNew[i]) == Some(key)
    ensures ItemFor(zones, Items(c, walks), |c.create| + i, key)
    ensures Items(c, walks)[|c.create| + i] == UpdateItem(c.updateOld[i], c.updateNew[i], walks[i])
  {
    ItemAt(c, walks, |c.create| + i);
  }

  /** A successful POST on a well-formed store leaves an updated key, whose old targets were the
      stored ones, with exactly the new targets. */
  lemma PostUpdates(zones: seq<string>, s: Store, c: Changes, walks: seq<seq<string>>, i: nat, key: Key)
    requires WellFormed(zones, s) && GoodChanges(zones, c, walks) && Acceptable(zones, c)
    requires i < |walks| && KeyFor(zones, c.updateNew[i]) == Some(key)
    requires Elements(c.updateOld[i].targets) == Targets(s, key)
    ensures Targets(Run(s, PostPlan(zones, s, c, walks).ops), key) == Elements(c.updateNew[i].targets)
  {
    CompleteExact(zones, s, c, walks);
    UpdateAt(zones, c, walks, i, key);
    PostOnItem(zones, s, c, walks, |c.create| + i, key);
    AskedOfUpdate(c.updateOld[i], c.updateNew[i], walks[i]);
  }

  lemma AskedOfUpdate(was: Endpoint, now: Endpoint, walk: seq<string>)
    ensures Asked(UpdateItem(was, now, walk), Elements(was.targets)) == Elements(now.targets)
  {
  }

  /** ... a created key with the stored and the listed targets ... */
  lemma PostCreates(zones: seq<string>, s: Store, c: Changes, walks: seq<seq<string>>, i: nat, key: Key)
    requires WellFormed(zones, s) && GoodChanges(zones, c, walks) && Acceptable(zones, c)
    requires i < |c.create| && KeyFor(zones, c.create[i]) == Some(key)
    ensures Targets(Run(s, PostPlan(zones, s, c, walks).ops), key) == Targets(s, key) + Elements(c.create[i].targets)
  {
    CompleteExact(zones, s, c, walks);
    ItemAt(c, walks, i);
    PostOnItem(zones, s, c, walks, i, key);
  }

  lemma DeleteAt(zones: seq<string>, c: Changes, walks: seq<seq<string>>, i: nat, key: Key)
    requires |walks| == Min(|c.updateOld|, |c.updateNew|) && i < |c.delete| && KeyFor(zones, c.delete[i]) == Some(key)
    ensures ItemFor(zones, Items(c, walks), |c.create| + |walks| + i, key)
    ensures Items(c, walks)[|c.create| + |walks| + i] == DeleteItem(c.delete[i])
  {
    var at := |c.create| + |walks| + i;
    ItemAt(c, walks, at);
    assert at - (|c.create| + |walks|) == i;
    var item := Items(c, walks)[at];
    assert item == DeleteItem(c.delete[i]);
    assert Subject(item) == c.delete[i];
  }

  /** ... a deleted key with the stored minus the listed targets, or with none if none is listed ... */
  lemma PostDeletes(zones: seq<string>, s: Store, c: Changes, walks: seq<seq<string>>, i: nat, key: Key)
    requires WellFormed(zones, s) && GoodChanges(zones, c, walks) && Acceptable(zones, c)
    requires i < |c.delete| && KeyFor(zones, c.delete[i]) == Some(key)
    ensures Targets(Run(s, PostPlan(zones, s, c, walks).ops), key)
      == if c.delete[i].targets == [] then {} else Targets(s, key) - Elements(c.delete[i].targets)
  {
    CompleteExact(zones, s, c, walks);
    DeleteAt(zones, c, walks, i, key);
    PostOnItem(zones, s, c, walks, |c.create| + |walks| + i, key);
  }

  /** ... every other key as it was, and the store well-formed. */
  lemma PostLeavesRest(zones: seq<string>, s: Store, c: Changes, walks: seq<seq<string>>, key: Key)
    requires WellFormed(zones, s) && GoodChanges(zones, c, walks) && Acceptable(zones, c)
    requires forall e :: e in c.create + c.updateNew[..|walks|] + c.delete ==> KeyFor(zones, e) != Some(key)
    ensures Targets(Run(s, PostPlan(zones, s, c, walks).ops), key) == Targets(s, key)
    ensures WellFormed(zones, Run(s, PostPlan(zones, s, c, walks).ops))
  {
    CompleteExact(zones, s, c, walks);
    var plan, items := PostPlan(zones, s, c, walks), Items(c, walks);
    assert plan.ops[..|plan.ops|] == plan.ops;
    PostKeepsWellFormed(zones, s, c, walks, |plan.ops|);
    PostEffect(zones, s, c, walks, |plan.ops|, key);
    forall i | 0 <= i < |items| ensures KeyFor(zones, Subject(items[i])) != Some(key) {
      SubjectsAre(c, walks, i);
    }
  }

  lemma SubjectsAre(c: Changes, walks: seq<seq<string>>, i: nat)
    requires |walks| == Min(|c.updateOld|, |c.updateNew|) && i < |Items(c, walks)|
    ensures Subject(Items(c, walks)[i]) in c.create + c.updateNew[..|walks|] + c.delete
  {
    var all := c.create + c.updateNew[..|walks|] + c.delete;
    ItemAt(c, walks, i);
    assert Subject(Items(c, walks)[i]) == all[i];
  }

  /** What a GET over the zones lists. */
  function ListAll(zones: seq<string>, s: Store): (r: seq<ZoneListing>)
    ensures |r| == |zones|
    ensures forall i :: 0 <= i < |r| ==> r[i] == ZoneListing(zones[i], Listing(s, zones[i]))
  {
    seq(|zones|, i requires 0 <= i < |zones| => ZoneListing(zones[i], Listing(s, zones[i])))
  }

  /** GET reports, for every supported key, exactly the targets stored under it. */
  lemma GetReportsTargets(zones: seq<string>, s: Store, key: Key)
    requires s.records.Keys == (set z | z in zones)
    ensures DataAt(Rows(ListAll(zones, s)), key) == if Supported(key.1) then Targets(s, key) else {}
  {
    var rows := Rows(ListAll(zones, s));
    forall data ensures data in DataAt(rows, key) <==> Supported(key.1) && data in Targets(s, key) {
      if data in DataAt(rows, key) {
        ListedIsStored(zones, s, key, data);
      }
      if Supported(key.1) && data in Targets(s, key) {
        StoredIsListed(zones, s, key, data);
      }
    }
  }

  lemma ListedIsStored(zones: seq<string>, s: Store, key: Key, data: string)
    requires data in DataAt(Rows(ListAll(zones, s)), key)
    ensures Supported(key.1) && data in Targets(s, key)
  {
    var rows := Rows(ListAll(zones, s));
    var i :| 0 <= i < |rows| && Reports(rows[i], key) && rows[i].record.data == data;
    RowsAre(ListAll(zones, s), rows[i]);
    assert In(s, rows[i].zone, rows[i].record);
    TargetsStored(s, key, data);
  }

  lemma StoredIsListed(zones: seq<string>, s: Store, key: Key, data: string)
    requires s.records.Keys == (set z | z in zones)
    requires Supported(key.1) && data in Targets(s, key)
    ensures data in DataAt(Rows(ListAll(zones, s)), key)
  {
    var listing := ListAll(zones, s);
    var rows := Rows(listing);
    TargetsStored(s, key, data);
    var z, r :| In(s, z, r) && KeyOf(z, r) == key && r.data == data;
    var j :| 0 <= j < |zones| && zones[j] == z;
    assert listing[j].zone == z && r in listing[j].records;
    RowsAre(listing, Row(z, r));
    var i :| 0 <= i < |rows| && rows[i] == Row(z, r);
    assert Reports(rows[i], key);
  }

  /** POST then GET: the endpoint reported under a supported key lists exactly what the change set
      asks for, and a key is reported exactly when that is not empty. */
  lemma PostThenGet(zones: seq<string>, s: Store, c: Changes, walks: seq<seq<string>>, answer: seq<Endpoint>, key: Key)
    requires WellFormed(zones, s) && GoodChanges(zones, c, walks) && Acceptable(zones, c)
    requires IsGrouping(Rows(ListAll(zones, Run(s, PostPlan(zones, s, c, walks).ops))), answer)
    requires Supported(key.1)
    ensures var desired := Desired(zones, Items(c, walks), key, Targets(s, key));
      && (forall i :: 0 <= i < |answer| && EndpointKey(answer[i]) == key ==> Elements(answer[i].targets) == desired)
      && ((exists i :: 0 <= i < |answer| && EndpointKey(answer[i]) == key) <==> desired != {})
  {
    CompleteExact(zones, s, c, walks);
    var plan := PostPlan(zones, s, c, walks);
    assert plan.ops[..|plan.ops|] == plan.ops;
    PostEffect(zones, s, c, walks, |plan.ops|, key);
    PostKeepsWellFormed(zones, s, c, walks, |plan.ops|);
    var t := Run(s, plan.ops);
    GetReportsTargets(zones, t, key);
    var rows := Rows(ListAll(zones, t));
    ReportedData(rows, key);
  }

  lemma ReportedData(rows: seq<Row>, key: Key)
    ensures Reported(rows, key) <==> DataAt(rows, key) != {}
  {
    if i :| 0 <= i < |rows| && Reports(rows[i], key) {
      assert rows[i].record.data in DataAt(rows, key);
    }
  }

  /** One attempt at the same change set: its hash walks, and after how many calls it was cut. */
  datatype Attempt = Attempt(walks: seq<seq<string>>, calls: nat)

  ghost predicate AttemptsOk(zones: seq<string>, c: Changes, attempts: seq<Attempt>) {
    forall i :: 0 <= i < |attempts| ==> GoodChanges(zones, c, attempts[i].walks)
  }

  /** The store after each attempt in turn took a snapshot and made its first calls. */
  function AfterAttempts(zones: seq<string>, s: Store, c: Changes, attempts: seq<Attempt>): Store
    requires forall i :: 0 <= i < |attempts| ==> |attempts[i].walks| == Min(|c.updateOld|, |c.updateNew|)
    decreases attempts
  {
    if attempts == [] then s
    else
      var ops := PostPlan(zones, s, c, attempts[0].walks).ops;
      AfterAttempts(zones, Run(s, ops[..Min(attempts[0].calls, |ops|)]), c, attempts[1..])
  }

  lemma {:induction false} CompleteIsStable(zones: seq<string>, a: Snapshot, b: Snapshot, xs: seq<Item>, ys: seq<Item>)
    requires |xs| == |ys| && forall i :: 0 <= i < |xs| ==> SameEntry(xs[i], ys[i])
    ensures PlanOf(zones, a, xs).complete == PlanOf(zones, b, ys).complete
    decreases xs
  {
    if xs != [] {
      assert SameEntry(xs[0], ys[0]);
      CompleteIsStable(zones, a, b, xs[1..], ys[1..]);
    }
  }

  /** The same entry up to the order in which its hash set is walked. */
  predicate SameEntry(a: Item, b: Item) {
    match (a, b)
    case (UpdateItem(x, y, _), UpdateItem(v, w, _)) => x == v && y == w
    case _ => a == b
  }

  lemma SameEntries(c: Changes, v: seq<seq<string>>, w: seq<seq<string>>)
    requires |v| == |w| == Min(|c.updateOld|, |c.updateNew|)
    ensures forall i :: 0 <= i < |Items(c, v)| ==> SameEntry(Items(c, v)[i], Items(c, w)[i])
  {
    forall i | 0 <= i < |Items(c, v)| ensures SameEntry(Items(c, v)[i], Items(c, w)[i]) {
      ItemAt(c, v, i);
      ItemAt(c, w, i);
    }
  }

  lemma PostCompleteIsStable(zones: seq<string>, s: Store, t: Store, c: Changes, v: seq<seq<string>>,
      w: seq<seq<string>>)
    requires |v| == |w| == Min(|c.updateOld|, |c.updateNew|)
    ensures PostPlan(zones, s, c, v).complete == PostPlan(zones, t, c, w).complete
  {
    if AllMapped(zones, NeedingSnapshot(c)) {
      SameEntries(c, v, w);
      CompleteIsStable(zones, SnapshotOf(zones, s, c), SnapshotOf(zones, t, c), Items(c, v), Items(c, w));
    }
  }

  lemma DesiredSame(zones: seq<string>, c: Changes, v: seq<seq<string>>, w: seq<seq<string>>, key: Key,
      stored: set<string>)
    requires |v| == |w| == Min(|c.updateOld|, |c.updateNew|)
    requires DistinctKeys(zones, Items(c, v))
    ensures Desired(zones, Items(c, v), key, stored) == Desired(zones, Items(c, w), key, stored)
  {
    var xs, ys := Items(c, v), Items(c, w);
    SameEntries(c, v, w);
    assert DistinctKeys(zones, ys);
    if i :| ItemFor(zones, xs, i, key) {
      assert ItemFor(zones, ys, i, key);
      DesiredIs(zones, xs, i, key, stored);
      DesiredIs(zones, ys, i, key, stored);
    } else {
      assert forall i :: ItemFor(zones, ys, i, key) ==> ItemFor(zones, xs, i, key);
    }
  }

  lemma {:induction false} AttemptsKeepDesired(zones: seq<string>, s: Store, c: Changes, attempts: seq<Attempt>,
                                               walks: seq<seq<string>>, key: Key)
    requires WellFormed(zones, s) && GoodChanges(zones, c, walks) && AttemptsOk(zones, c, attempts)
    requires PostPlan(zones, s, c, walks).complete
    ensures var t := AfterAttempts(zones, s, c, attempts);
      && WellFormed(zones, t)
      && Desired(zones, Items(c, walks), key, Targets(t, key)) == Desired(zones, Items(c, walks), key, Targets(s, key))
    decreases attempts
  {
    if attempts != [] {
      var w := attempts[0].walks;
      var ops := PostPlan(zones, s, c, w).ops;
      var k := Min(attempts[0].calls, |ops|);
      var next := Run(s, ops[..k]);
      PostCompleteIsStable(zones, s, s, c, walks, w);
      PostCompleteIsStable(zones, s, next, c, walks, walks);
      PostKeepsWellFormed(zones, s, c, w, k);
      PostEffect(zones, s, c, w, k, key);
      DesiredSame(zones, c, walks, w, key, Targets(s, key));
      DesiredSame(zones, c, walks, w, key, Targets(next, key));
      AttemptsKeepDesired(zones, next, c, attempts[1..], walks, key);
    }
  }

  /** Retry converges: whatever number of attempts were cut short, each after any number of calls
      and each walking its hash sets in any order, sending the change set once more to success
      leaves the same targets under every key as one uninterrupted POST on the original store. */
  lemma RetryConverges(zones: seq<string>, s: Store, c: Changes, attempts: seq<Attempt>,
                       last: seq<seq<string>>, once: seq<seq<string>>, key: Key)
    requires WellFormed(zones, s) && AttemptsOk(zones, c, attempts)
    requires GoodChanges(zones, c, last) && GoodChanges(zones, c, once)
    requires Acceptable(zones, c)
    ensures var t := AfterAttempts(zones, s, c, attempts);
      && PostPlan(zones, t, c, last).complete
      && Targets(Run(t, PostPlan(zones, t, c, last).ops), key)
         == Targets(Run(s, PostPlan(zones, s, c, once).ops), key)
  {
    CompleteExact(zones, s, c, once);
    var t := AfterAttempts(zones, s, c, attempts);
    var retry, whole := PostPlan(zones, t, c, last), PostPlan(zones, s, c, once);
    AttemptsKeepDesired(zones, s, c, attempts, once, key);
    PostCompleteIsStable(zones, s, t, c, once, last);
    assert retry.ops[..|retry.ops|] == retry.ops && whole.ops[..|whole.ops|] == whole.ops;
    PostEffect(zones, t, c, last, |retry.ops|, key);
    PostEffect(zones, s, c, once, |whole.ops|, key);
    DesiredSame(zones, c, once, last, key, Targets(t, key));
  }
}
