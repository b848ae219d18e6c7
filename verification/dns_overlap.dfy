/** What holds while a POST is under way, and what its creates carry. */
module DnsOverlap {
  import opened Wrappers
  import opened Text
  import opened DnsNames
  import opened DnsRecords
  import opened DnsStore
  import opened DnsAcceptance
  import opened DnsPlan
  import opened DnsTheorems

  // ---------- creates before deletes ----------

  /** The calls of a complete plan: those of the entries before, of entry `i`, and of the entries after. */
  lemma Around(zones: seq<string>, snapshot: Snapshot, items: seq<Item>, i: nat)
    requires i < |items| && PlanOf(zones, snapshot, items).complete
    ensures Block(zones, snapshot, items[i]).Some?
    ensures PlanOf(zones, snapshot, items).ops
         == PlanOf(zones, snapshot, items[..i]).ops
             + (Block(zones, snapshot, items[i]).value + PlanOf(zones, snapshot, items[i + 1..]).ops)
  {
    PlanSplits(zones, snapshot, items, i);
    var p, q, r := PlanOf(zones, snapshot, items[..i]), BlockPlan(zones, snapshot, items[i]),
        PlanOf(zones, snapshot, items[i + 1..]);
    ThenComplete(p, Then(q, r));
    ThenComplete(q, r);
    BlockPlanComplete(zones, snapshot, items[i]);
  }

  lemma PlanSplits(zones: seq<string>, snapshot: Snapshot, items: seq<Item>, i: nat)
    requires i < |items|
    ensures PlanOf(zones, snapshot, items)
         == Then(PlanOf(zones, snapshot, items[..i]),
             Then(BlockPlan(zones, snapshot, items[i]), PlanOf(zones, snapshot, items[i + 1..])))
  {
    var rest := items[i..];
    assert items == items[..i] + rest;
    PlanConcat(zones, snapshot, items[..i], rest);
    assert rest[0] == items[i] && rest[1..] == items[i + 1..];
  }

  /** No earlier entry has a delete call of entry `i`. */
  lemma NotBefore(zones: seq<string>, s: Store, snapshot: Snapshot, items: seq<Item>, i: nat, d: Op)
    requires WellFormed(zones, s) && CanonicalItems(items) && Fits(zones, s, snapshot, items)
    requires DistinctKeys(zones, items)
    requires i < |items| && HasCall(zones, snapshot, items[i], d) && d.Delete?
    ensures d !in PlanOf(zones, snapshot, items[..i]).ops
  {
    BlockActsOnKey(zones, s, snapshot, items[i], d);
    if d in PlanOf(zones, snapshot, items[..i]).ops {
      var j := PlanBlocks(zones, snapshot, items[..i], d);
      assert items[..i][j] == items[j];
      BlockActsOnKey(zones, s, snapshot, items[j], d);
      var a, b := KeyFor(zones, Subject(items[i])).value, KeyFor(zones, Subject(items[j])).value;
      OneKeyPerCall(s, d, a, b);
      OneItemPerKey(zones, items, i, j, a);
      assert false;
    }
  }

  lemma UpdateBlock(zones: seq<string>, snapshot: Snapshot, item: Item) returns (creates: seq<Op>, deletes: seq<Op>)
    requires item.UpdateItem? && Block(zones, snapshot, item).Some?
    ensures MapName(item.now.dnsName, zones).Some? && EndpointNumbers(item.now).Some?
    ensures Block(zones, snapshot, item).value == creates + deletes
    ensures var (zone, name) := MapName(item.now.dnsName, zones).value;
      creates == CreateOps(zone, name, item.now, EndpointNumbers(item.now).value, item.walk)
    ensures forall op :: op in deletes ==> op.Delete?
  {
    var (zone, name) := MapName(item.now.dnsName, zones).value;
    creates := CreateOps(zone, name, item.now, EndpointNumbers(item.now).value, item.walk);
    deletes := DeleteOps(zone, Listed(snapshot, zone), name, item.was.recordType, false, ToDelete(item.was, item.now));
  }

  /** An update's calls: the creates of its walk, then deletes. */
  lemma UpdateShape(zones: seq<string>, snapshot: Snapshot, item: Item, x: nat)
    requires item.UpdateItem? && Block(zones, snapshot, item).Some? && x < |Block(zones, snapshot, item).value|
    ensures MapName(item.now.dnsName, zones).Some? && EndpointNumbers(item.now).Some?
    ensures var (zone, name) := MapName(item.now.dnsName, zones).value;
      var op := Block(zones, snapshot, item).value[x];
      if x < |item.walk| then op == CreateOp(zone, name, item.now, EndpointNumbers(item.now).value, item.walk[x])
      else op.Delete?
  {
    var creates, deletes := UpdateBlock(zones, snapshot, item);
    if x >= |creates| {
      assert deletes[x - |creates|] in deletes;
    }
  }

  /** Within an update's calls every create comes before any delete. */
  lemma CreatesLead(zones: seq<string>, snapshot: Snapshot, item: Item, p: nat, c: Op)
    requires item.UpdateItem? && Block(zones, snapshot, item).Some?
    requires var ops := Block(zones, snapshot, item).value; p < |ops| && ops[p].Delete? && c in ops && c.Create?
    ensures c in Block(zones, snapshot, item).value[..p]
  {
    var ops := Block(zones, snapshot, item).value;
    var q :| 0 <= q < |ops| && ops[q] == c;
    UpdateShape(zones, snapshot, item, p);
    UpdateShape(zones, snapshot, item, q);
    assert q < p;
    assert ops[..p][q] == c;
  }

  lemma InPrefix(before: seq<Op>, block: seq<Op>, after: seq<Op>, k: nat, d: Op, c: Op)
    requires k <= |before + (block + after)| && d in (before + (block + after))[..k] && d !in before && c in block
    requires forall at :: 0 <= at < |block| && block[at] == d ==> c in block[..at]
    ensures c in (before + (block + after))[..k]
  {
    var all := before + (block + after);
    assert forall x :: 0 <= x < |before| ==> all[x] in before;
    var p :| 0 <= p < k && all[..k][p] == d;
    var at := p - |before|;
    var upto := if at < |block| then block[..at] else block;
    assert at < |block| ==> block[at] == d;
    var q :| 0 <= q < |upto| && upto[q] == c;
    assert all[|before| + q] == c && all[..k][|before| + q] == c;
  }

  /** A part of the plan that has a delete of an update has all creates of that update. */
  lemma DeletesFollowCreates(zones: seq<string>, s: Store, snapshot: Snapshot, items: seq<Item>, i: nat, k: nat,
      d: Op, c: Op)
    requires WellFormed(zones, s) && CanonicalItems(items) && Fits(zones, s, snapshot, items)
    requires DistinctKeys(zones, items)
    requires PlanOf(zones, snapshot, items).complete && k <= |PlanOf(zones, snapshot, items).ops|
    requires i < |items| && items[i].UpdateItem?
    requires HasCall(zones, snapshot, items[i], d) && d.Delete? && d in PlanOf(zones, snapshot, items).ops[..k]
    requires HasCall(zones, snapshot, items[i], c) && c.Create?
    ensures c in PlanOf(zones, snapshot, items).ops[..k]
  {
    Around(zones, snapshot, items, i);
    NotBefore(zones, s, snapshot, items, i, d);
    var block := Block(zones, snapshot, items[i]).value;
    forall at | 0 <= at < |block| && block[at] == d ensures c in block[..at] {
      CreatesLead(zones, snapshot, items[i], at, c);
    }
    InPrefix(PlanOf(zones, snapshot, items[..i]).ops, block, PlanOf(zones, snapshot, items[i + 1..]).ops, k, d, c);
  }

  /** Some target of the update is stored after any part of the plan: an old one that stays or is not deleted
      yet, or a new one. */
  lemma Overlap(zones: seq<string>, s: Store, snapshot: Snapshot, items: seq<Item>, i: nat, k: nat, key: Key,
      o: string, t: string)
    requires WellFormed(zones, s) && CanonicalItems(items) && Fits(zones, s, snapshot, items)
    requires DistinctKeys(zones, items)
    requires PlanOf(zones, snapshot, items).complete && k <= |PlanOf(zones, snapshot, items).ops|
    requires ItemFor(zones, items, i, key) && items[i].UpdateItem?
    requires o in Targets(s, key) && t in ToCreate(items[i].was, items[i].now)
    ensures var v := Run(s, PlanOf(zones, snapshot, items).ops[..k]); o in Targets(v, key) || t in Targets(v, key)
  {
    var all := PlanOf(zones, snapshot, items).ops;
    var ops := all[..k];
    PlanIsSafe(zones, s, snapshot, items);
    RunTargets(s, ops, key, o);
    RunTargets(s, ops, key, t);
    TargetsStored(s, key, o);
    var z, r :| In(s, z, r) && KeyOf(z, r) == key && r.data == o;
    var d := Delete(z, r.id);
    if d !in ops {
      assert StoredUndeleted(s, ops, key, o);
    } else {
      assert d in all;
      assert ActsOn(s, d, key);
      var j := OwnCalls(zones, s, snapshot, items, d, key);
      OneItemPerKey(zones, items, i, j, key);
      BlockExists(zones, snapshot, items, i);
      BlockCreates(zones, snapshot, items[i], t);
      var block := Block(zones, snapshot, items[i]).value;
      var c :| c in block && c.Create? && OpKey(c) == key && c.request.data == t;
      DeletesFollowCreates(zones, s, snapshot, items, i, k, d, c);
      assert CreatedData(ops, key, t);
    }
  }

  lemma SomeTargetStays(zones: seq<string>, s: Store, snapshot: Snapshot, items: seq<Item>, i: nat, k: nat, key: Key,
      o: string, t: string)
    requires WellFormed(zones, s) && CanonicalItems(items) && Fits(zones, s, snapshot, items)
    requires DistinctKeys(zones, items)
    requires PlanOf(zones, snapshot, items).complete && k <= |PlanOf(zones, snapshot, items).ops|
    requires ItemFor(zones, items, i, key) && items[i].UpdateItem?
    requires o in Targets(s, key) && t in items[i].now.targets && (t in items[i].was.targets ==> t in Targets(s, key))
    ensures Targets(Run(s, PlanOf(zones, snapshot, items).ops[..k]), key) != {}
  {
    if t in items[i].was.targets {
      assert !Removed(items[i], t);
      TouchedKey(zones, s, snapshot, items, k, i, t);
    } else {
      Overlap(zones, s, snapshot, items, i, k, key, o, t);
    }
  }

  lemma NoGapOnPlan(zones: seq<string>, s: Store, c: Changes, walks: seq<seq<string>>, i: nat, k: nat, key: Key)
    requires WellFormed(zones, s) && GoodChanges(zones, c, walks) && PostPlan(zones, s, c, walks).complete
    requires k <= |PostPlan(zones, s, c, walks).ops|
    requires i < |walks| && KeyFor(zones, c.updateNew[i]) == Some(key)
    requires c.updateOld[i].targets != [] && c.updateNew[i].targets != []
    requires forall t :: t in c.updateOld[i].targets ==> t in Targets(s, key)
    ensures Targets(Run(s, PostPlan(zones, s, c, walks).ops[..k]), key) != {}
  {
    UpdateAt(zones, c, walks, i, key);
    PostFits(zones, s, c, walks);
    SomeTargetStays(zones, s, SnapshotOf(zones, s, c), Items(c, walks), |c.create| + i, k, key,
                    c.updateOld[i].targets[0], c.updateNew[i].targets[0]);
  }

  /** No gap: while an update goes from some targets to some others, its key is never without any, however
      far the POST has got. */
  lemma UpdateLeavesNoGap(zones: seq<string>, s: Store, c: Changes, walks: seq<seq<string>>, i: nat, k: nat, key: Key)
    requires WellFormed(zones, s) && GoodChanges(zones, c, walks) && Acceptable(zones, c)
    requires k <= |PostPlan(zones, s, c, walks).ops|
    requires i < |walks| && KeyFor(zones, c.updateNew[i]) == Some(key)
    requires Elements(c.updateOld[i].targets) == Targets(s, key)
    requires c.updateOld[i].targets != [] && c.updateNew[i].targets != []
    ensures Targets(Run(s, PostPlan(zones, s, c, walks).ops[..k]), key) != {}
  {
    CompleteExact(zones, s, c, walks);
    forall t | t in c.updateOld[i].targets ensures t in Targets(s, key) {
      assert t in Elements(c.updateOld[i].targets);
    }
    NoGapOnPlan(zones, s, c, walks, i, k, key);
  }

  // ---------- what creates carry ----------

  ghost predicate Carries(op: Op, e: Endpoint)
    requires op.Create?
  {
    && ProviderNumber(e.providerSpecific, "priority") == Some(op.request.priority)
    && ProviderNumber(e.providerSpecific, "port") == Some(op.request.port)
    && ProviderNumber(e.providerSpecific, "weight") == Some(op.request.weight)
  }

  /** Every record a POST creates is one listed target of a create or update entry, in that entry's zone and
      under its name and type, with that entry's priority, port and weight. */
  lemma CreatesCarryTheirEntry(zones: seq<string>, s: Store, c: Changes, walks: seq<seq<string>>, op: Op)
      returns (e: Endpoint)
    requires WalksOk(c, walks) && op in PostPlan(zones, s, c, walks).ops && op.Create?
    ensures e in c.create || e in c.updateNew
    ensures op.request.data in e.targets && op.request.recordType == e.recordType
    ensures MapName(e.dnsName, zones) == Some((op.zone, op.request.name))
    ensures Carries(op, e)
  {
    var items, snapshot := Items(c, walks), SnapshotOf(zones, s, c);
    var i := PlanBlocks(zones, snapshot, items, op);
    ItemAt(c, walks, i);
    e := Subject(items[i]);
    CreatesInPlace(zones, snapshot, items[i], op);
    CreateIsListed(zones, snapshot, items[i], op);
    if items[i].UpdateItem? {
      assert Enumerates(items[i].walk, ToCreate(items[i].was, items[i].now));
    }
  }

  lemma CreateIsListed(zones: seq<string>, snapshot: Snapshot, item: Item, op: Op)
    requires HasCall(zones, snapshot, item, op) && op.Create?
    ensures !item.DeleteItem?
    ensures op.request.data in Walked(item)
    ensures Carries(op, Subject(item))
  {
    var block := Block(zones, snapshot, item).value;
    var i :| 0 <= i < |block| && block[i] == op;
    if item.UpdateItem? {
      UpdateShape(zones, snapshot, item, i);
    }
  }

  function Walked(item: Item): seq<string> {
    match item
    case AddItem(e) => e.targets
    case UpdateItem(_, _, walk) => walk
    case DeleteItem(_) => []
  }
}
