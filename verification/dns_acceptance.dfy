/** Which change sets POST accepts, and exactly which records it creates and deletes. */
module DnsAcceptance {
  import opened Wrappers
  import opened Text
  import opened DnsNames
  import opened DnsRecords
  import opened DnsStore
  import opened DnsPlan

  // ---------- numbers ----------

  /** The first property of that name, whatever its case. */
  predicate FirstNamed(properties: seq<(string, string)>, key: string, i: int) {
    && 0 <= i < |properties| && EqIgnoreCase(properties[i].0, key)
    && forall j :: 0 <= j < i ==> !EqIgnoreCase(properties[j].0, key)
  }

  /** A number is that of the first property with its name, absent if there is none, and an error if
      that one does not parse, even if a later one would. */
  lemma {:induction false} NumberExact(properties: seq<(string, string)>, key: string)
    ensures ProviderNumber(properties, key) ==
      if i :| FirstNamed(properties, key, i)
      then if ParseI64(properties[i].1).Some? then Some(ParseI64(properties[i].1)) else None
      else Some(None)
  {
    if properties != [] {
      var rest := properties[1..];
      if EqIgnoreCase(properties[0].0, key) {
        assert FirstNamed(properties, key, 0);
      } else {
        NumberExact(rest, key);
        forall i ensures FirstNamed(properties, key, i) <==> FirstNamed(rest, key, i - 1) {
          assert 0 < i < |properties| ==> rest[i - 1] == properties[i];
          assert forall j :: 0 < j < |properties| ==> rest[j - 1] == properties[j];
          if FirstNamed(properties, key, i) {
            assert forall j :: 0 <= j < i - 1 ==> rest[j] == properties[j + 1];
          }
          if FirstNamed(rest, key, i - 1) {
            forall j | 0 <= j < i ensures !EqIgnoreCase(properties[j].0, key) {
              assert j == 0 || rest[j - 1] == properties[j];
            }
          }
        }
        if i :| FirstNamed(rest, key, i) {
          assert FirstNamed(properties, key, i + 1);
        }
      }
    }
  }

  /** A number is absent or parses. */
  ghost predicate NumberOk(e: Endpoint, key: string) {
    forall i :: FirstNamed(e.providerSpecific, key, i) ==> ParseI64(e.providerSpecific[i].1).Some?
  }

  ghost predicate NumbersOk(e: Endpoint) {
    NumberOk(e, "priority") && NumberOk(e, "port") && NumberOk(e, "weight")
  }

  lemma NumberOkExact(e: Endpoint, key: string)
    ensures ProviderNumber(e.providerSpecific, key).Some? <==> NumberOk(e, key)
  {
    NumberExact(e.providerSpecific, key);
    forall i, j | FirstNamed(e.providerSpecific, key, i) && FirstNamed(e.providerSpecific, key, j) ensures i == j {}
  }

  lemma NumbersOkExact(e: Endpoint)
    ensures EndpointNumbers(e).Some? <==> NumbersOk(e)
  {
    NumberOkExact(e, "priority");
    NumberOkExact(e, "port");
    NumberOkExact(e, "weight");
  }

  // ---------- acceptance ----------

  /** Some zone matches the endpoint's name. */
  ghost predicate Matched(zones: seq<string>, e: Endpoint) {
    exists i :: 0 <= i < |zones| && Matches(Normalize(e.dnsName), Normalize(zones[i]))
  }

  lemma MatchedExact(zones: seq<string>, e: Endpoint)
    ensures HasZone(zones, e) <==> Matched(zones, e)
  {
  }

  /** Every endpoint matches some zone, and the numbers of every entry that creates are absent or parse. Of the
      update lists only the pairs below the shorter length create. */
  ghost predicate Acceptable(zones: seq<string>, c: Changes) {
    && (forall i :: 0 <= i < |c.create| ==> Matched(zones, c.create[i]) && NumbersOk(c.create[i]))
    && (forall i :: 0 <= i < |c.updateOld| ==> Matched(zones, c.updateOld[i]))
    && (forall i :: 0 <= i < |c.updateNew| ==> Matched(zones, c.updateNew[i]))
    && (forall i :: 0 <= i < |c.updateOld| && i < |c.updateNew| ==> NumbersOk(c.updateNew[i]))
    && (forall i :: 0 <= i < |c.delete| ==> Matched(zones, c.delete[i]))
  }

  ghost predicate ItemOk(zones: seq<string>, item: Item) {
    Matched(zones, Subject(item)) && (item.DeleteItem? || NumbersOk(Subject(item)))
  }

  ghost predicate ItemsOk(zones: seq<string>, items: seq<Item>) {
    forall i :: 0 <= i < |items| ==> ItemOk(zones, items[i])
  }

  lemma BlockExact(zones: seq<string>, snapshot: Snapshot, item: Item)
    ensures Block(zones, snapshot, item).Some? <==> ItemOk(zones, item)
  {
    MatchedExact(zones, Subject(item));
    NumbersOkExact(Subject(item));
  }

  lemma {:induction false} PlanExact(zones: seq<string>, snapshot: Snapshot, items: seq<Item>)
    ensures PlanOf(zones, snapshot, items).complete <==> ItemsOk(zones, items)
    decreases items
  {
    if items != [] {
      var rest := items[1..];
      BlockExact(zones, snapshot, items[0]);
      PlanExact(zones, snapshot, rest);
      assert forall i :: 0 < i < |items| ==> rest[i - 1] == items[i];
    }
  }

  lemma AllMappedExact(zones: seq<string>, c: Changes)
    ensures AllMapped(zones, NeedingSnapshot(c)) <==>
      && (forall i :: 0 <= i < |c.updateOld| ==> Matched(zones, c.updateOld[i]))
      && (forall i :: 0 <= i < |c.updateNew| ==> Matched(zones, c.updateNew[i]))
      && (forall i :: 0 <= i < |c.delete| ==> Matched(zones, c.delete[i]))
  {
    var es := NeedingSnapshot(c);
    forall e ensures HasZone(zones, e) <==> Matched(zones, e) {
      MatchedExact(zones, e);
    }
    if AllMapped(zones, es) {
      assert forall i :: 0 <= i < |c.updateOld| ==> c.updateOld[i] in es;
      assert forall i :: 0 <= i < |c.updateNew| ==> c.updateNew[i] in es;
      assert forall i :: 0 <= i < |c.delete| ==> c.delete[i] in es;
    }
  }

  /** Where the entries of each list stand among the items. */
  lemma AddPlace(c: Changes, walks: seq<seq<string>>, i: nat)
    requires |walks| == Min(|c.updateOld|, |c.updateNew|) && i < |c.create|
    ensures Items(c, walks)[i] == AddItem(c.create[i])
  {
    ItemAt(c, walks, i);
  }

  lemma UpdatePlace(c: Changes, walks: seq<seq<string>>, i: nat)
    requires |walks| == Min(|c.updateOld|, |c.updateNew|) && i < |walks|
    ensures Items(c, walks)[|c.create| + i] == UpdateItem(c.updateOld[i], c.updateNew[i], walks[i])
  {
    ItemAt(c, walks, |c.create| + i);
  }

  lemma DeletePlace(c: Changes, walks: seq<seq<string>>, i: nat)
    requires |walks| == Min(|c.updateOld|, |c.updateNew|) && i < |c.delete|
    ensures Items(c, walks)[|c.create| + |walks| + i] == DeleteItem(c.delete[i])
  {
    ItemAt(c, walks, |c.create| + |walks| + i);
  }

  ghost predicate EntriesOk(zones: seq<string>, c: Changes, pairs: nat)
    requires pairs <= |c.updateNew|
  {
    && (forall i :: 0 <= i < |c.create| ==> Matched(zones, c.create[i]) && NumbersOk(c.create[i]))
    && (forall i :: 0 <= i < pairs ==> Matched(zones, c.updateNew[i]) && NumbersOk(c.updateNew[i]))
    && (forall i :: 0 <= i < |c.delete| ==> Matched(zones, c.delete[i]))
  }

  /** Which entry an item is of. */
  lemma ItemCase(c: Changes, walks: seq<seq<string>>, i: nat) returns (j: nat)
    requires |walks| == Min(|c.updateOld|, |c.updateNew|) && i < |Items(c, walks)|
    ensures match Items(c, walks)[i]
            case AddItem(e) => j < |c.create| && e == c.create[j]
            case UpdateItem(was, now, walk) =>
              j < |walks| && was == c.updateOld[j] && now == c.updateNew[j] && walk == walks[j]
            case DeleteItem(e) => j < |c.delete| && e == c.delete[j]
  {
    var a, b := |c.create|, |c.create| + |walks|;
    j := if i < a then i else if i < b then i - a else i - b;
    ItemAt(c, walks, i);
  }

  lemma ItemsFromEntries(zones: seq<string>, c: Changes, walks: seq<seq<string>>, i: nat)
    requires |walks| == Min(|c.updateOld|, |c.updateNew|) && EntriesOk(zones, c, |walks|) && i < |Items(c, walks)|
    ensures ItemOk(zones, Items(c, walks)[i])
  {
    var j := ItemCase(c, walks, i);
  }

  lemma ItemsOkExact(zones: seq<string>, c: Changes, walks: seq<seq<string>>)
    requires |walks| == Min(|c.updateOld|, |c.updateNew|)
    ensures ItemsOk(zones, Items(c, walks)) <==> EntriesOk(zones, c, |walks|)
  {
    var items := Items(c, walks);
    if ItemsOk(zones, items) {
      forall i | 0 <= i < |c.create| ensures ItemOk(zones, AddItem(c.create[i])) { AddPlace(c, walks, i); }
      forall i | 0 <= i < |walks| ensures ItemOk(zones, UpdateItem(c.updateOld[i], c.updateNew[i], walks[i])) {
        UpdatePlace(c, walks, i);
      }
      forall i | 0 <= i < |c.delete| ensures ItemOk(zones, DeleteItem(c.delete[i])) { DeletePlace(c, walks, i); }
    }
    if EntriesOk(zones, c, |walks|) {
      forall i | 0 <= i < |items| ensures ItemOk(zones, items[i]) { ItemsFromEntries(zones, c, walks, i); }
    }
  }

  /** For every store, change set and order of the hash sets: POST has calls for all entries exactly if the
      change set is acceptable. */
  lemma CompleteExact(zones: seq<string>, s: Store, c: Changes, walks: seq<seq<string>>)
    requires |walks| == Min(|c.updateOld|, |c.updateNew|)
    ensures PostPlan(zones, s, c, walks).complete <==> Acceptable(zones, c)
  {
    AllMappedExact(zones, c);
    if AllMapped(zones, NeedingSnapshot(c)) {
      PlanExact(zones, SnapshotOf(zones, s, c), Items(c, walks));
    }
    ItemsOkExact(zones, c, walks);
  }

  /** So a POST that succeeds was sent an acceptable change set, whatever the store. */
  lemma OnlyAcceptableSucceed(zones: seq<string>, s: Store, c: Changes, walks: seq<seq<string>>, budget: nat)
    requires |walks| == Min(|c.updateOld|, |c.updateNew|)
    requires var plan := PostPlan(zones, s, c, walks); Outcome(s, plan.ops, plan.complete, budget).2
    ensures Acceptable(zones, c)
  {
    var plan := PostPlan(zones, s, c, walks);
    var k := OutcomeIsPrefix(s, plan.ops, plan.complete, budget);
    CompleteExact(zones, s, c, walks);
  }

  /** A POST that is not complete has the calls of the entries before the first that is not acceptable. */
  lemma StopsAtFirstBad(zones: seq<string>, snapshot: Snapshot, before: seq<Item>, bad: Item, after: seq<Item>)
    requires ItemsOk(zones, before) && !ItemOk(zones, bad)
    ensures PlanOf(zones, snapshot, before).complete
    ensures PlanOf(zones, snapshot, before + ([bad] + after)) == Plan(PlanOf(zones, snapshot, before).ops, false)
  {
    PlanExact(zones, snapshot, before);
    StopsAtOnce(zones, snapshot, [bad] + after);
    ConcatStops(zones, snapshot, before, [bad] + after);
  }

  lemma ConcatStops(zones: seq<string>, snapshot: Snapshot, items: seq<Item>, rest: seq<Item>)
    requires PlanOf(zones, snapshot, items).complete && PlanOf(zones, snapshot, rest) == Plan([], false)
    ensures PlanOf(zones, snapshot, items + rest) == Plan(PlanOf(zones, snapshot, items).ops, false)
  {
    PlanConcat(zones, snapshot, items, rest);
    ThenStop(PlanOf(zones, snapshot, items));
  }

  lemma ThenStop(p: Plan)
    requires p.complete
    ensures Then(p, Plan([], false)) == Plan(p.ops, false)
  {
    assert p.ops + [] == p.ops;
  }

  lemma StopsAtOnce(zones: seq<string>, snapshot: Snapshot, items: seq<Item>)
    requires items != [] && !ItemOk(zones, items[0])
    ensures PlanOf(zones, snapshot, items) == Plan([], false)
  {
    BlockExact(zones, snapshot, items[0]);
  }

  // ---------- exactly which records ----------

  /** The data of the records created, in order. */
  function CreatedInOrder(ops: seq<Op>): seq<string> {
    if ops == [] then []
    else Data(ops[0]) + CreatedInOrder(ops[1..])
  }

  function Data(op: Op): seq<string> {
    if op.Create? then [op.request.data] else []
  }

  function Flat(lists: seq<seq<string>>): seq<string> {
    if lists == [] then [] else lists[0] + Flat(lists[1..])
  }

  function TargetLists(es: seq<Endpoint>): (r: seq<seq<string>>)
    ensures |r| == |es| && forall i :: 0 <= i < |es| ==> r[i] == es[i].targets
  {
    seq(|es|, i requires 0 <= i < |es| => es[i].targets)
  }

  lemma Regroup(a: seq<string>, b: seq<string>, c: seq<string>)
    ensures (a + b) + c == a + (b + c)
  {
  }

  lemma {:induction false} CreatedAppend(a: seq<Op>, b: seq<Op>)
    ensures CreatedInOrder(a + b) == CreatedInOrder(a) + CreatedInOrder(b)
  {
    if a == [] {
      assert a + b == b;
    } else {
      assert (a + b)[1..] == a[1..] + b;
      CreatedAppend(a[1..], b);
      Regroup(Data(a[0]), CreatedInOrder(a[1..]), CreatedInOrder(b));
    }
  }

  lemma {:induction false} CreatesCreate(zone: string, name: string, e: Endpoint, n: Numbers, targets: seq<string>)
    ensures CreatedInOrder(CreateOps(zone, name, e, n, targets)) == targets
  {
    if targets != [] {
      assert CreateOps(zone, name, e, n, targets)[1..] == CreateOps(zone, name, e, n, targets[1..]);
      CreatesCreate(zone, name, e, n, targets[1..]);
    }
  }

  lemma {:induction false} DeletesCreateNothing(ops: seq<Op>)
    requires forall op :: op in ops ==> op.Delete?
    ensures CreatedInOrder(ops) == []
  {
    if ops != [] {
      assert ops[0] in ops;
      DeletesCreateNothing(ops[1..]);
    }
  }

  function Walk(item: Item): seq<string> {
    match item
    case AddItem(e) => e.targets
    case UpdateItem(_, _, walk) => walk
    case DeleteItem(_) => []
  }

  lemma BlockCreatesInOrder(zones: seq<string>, snapshot: Snapshot, item: Item)
    requires Block(zones, snapshot, item).Some?
    ensures CreatedInOrder(Block(zones, snapshot, item).value) == Walk(item)
  {
    var (zone, name) := MapName(Subject(item).dnsName, zones).value;
    match item
    case AddItem(e) => CreatesCreate(zone, name, e, EndpointNumbers(e).value, e.targets);
    case UpdateItem(was, now, walk) =>
      var creates := CreateOps(zone, name, now, EndpointNumbers(now).value, walk);
      var deletes := DeleteOps(zone, Listed(snapshot, zone), name, was.recordType, false, ToDelete(was, now));
      CreatesCreate(zone, name, now, EndpointNumbers(now).value, walk);
      DeletesCreateNothing(deletes);
      CreatedAppend(creates, deletes);
    case DeleteItem(e) =>
      DeletesCreateNothing(Block(zones, snapshot, item).value);
  }

  function Walked(items: seq<Item>): (r: seq<seq<string>>)
    ensures |r| == |items| && forall i :: 0 <= i < |items| ==> r[i] == Walk(items[i])
  {
    seq(|items|, i requires 0 <= i < |items| => Walk(items[i]))
  }

  lemma {:induction false} PlanCreatesInOrder(zones: seq<string>, snapshot: Snapshot, items: seq<Item>)
    requires PlanOf(zones, snapshot, items).complete
    ensures CreatedInOrder(PlanOf(zones, snapshot, items).ops) == Flat(Walked(items))
    decreases items
  {
    if items != [] {
      var first, rest := BlockPlan(zones, snapshot, items[0]), PlanOf(zones, snapshot, items[1..]);
      ThenComplete(first, rest);
      BlockPlanComplete(zones, snapshot, items[0]);
      BlockCreatesInOrder(zones, snapshot, items[0]);
      PlanCreatesInOrder(zones, snapshot, items[1..]);
      CreatedAppend(first.ops, rest.ops);
      assert Walked(items)[1..] == Walked(items[1..]);
    }
  }

  lemma {:induction false} FlatAppend(a: seq<seq<string>>, b: seq<seq<string>>)
    ensures Flat(a + b) == Flat(a) + Flat(b)
  {
    if a == [] {
      assert a + b == b;
    } else {
      assert (a + b)[1..] == a[1..] + b;
      FlatAppend(a[1..], b);
    }
  }

  lemma {:induction false} FlatOfEmpty(lists: seq<seq<string>>)
    requires forall i :: 0 <= i < |lists| ==> lists[i] == []
    ensures Flat(lists) == []
  {
    if lists != [] { FlatOfEmpty(lists[1..]); }
  }

  /** Each target that is new and was not old, once. */
  ghost predicate ListsNew(walk: seq<string>, was: Endpoint, now: Endpoint) {
    && (forall t :: t in walk <==> t in now.targets && t !in was.targets)
    && (forall i, j :: 0 <= i < j < |walk| ==> walk[i] != walk[j])
  }

  /** An accepted POST creates exactly one record for every listed target of every create entry, in order, and then
      one for every target of an update that is new and was not old, in the order the hash set is walked. */
  lemma CreatesExactly(zones: seq<string>, s: Store, c: Changes, walks: seq<seq<string>>)
    requires WalksOk(c, walks) && Acceptable(zones, c)
    ensures CreatedInOrder(PostPlan(zones, s, c, walks).ops) == Flat(TargetLists(c.create)) + Flat(walks)
    ensures forall i :: 0 <= i < |walks| ==> ListsNew(walks[i], c.updateOld[i], c.updateNew[i])
  {
    CompleteExact(zones, s, c, walks);
    PlanCreatesInOrder(zones, SnapshotOf(zones, s, c), Items(c, walks));
    FlatWalks(c, walks);
    WalksListNew(c, walks);
  }

  lemma WalksListNew(c: Changes, walks: seq<seq<string>>)
    requires WalksOk(c, walks)
    ensures forall i :: 0 <= i < |walks| ==> ListsNew(walks[i], c.updateOld[i], c.updateNew[i])
  {
    forall i | 0 <= i < |walks| ensures ListsNew(walks[i], c.updateOld[i], c.updateNew[i]) {
      assert Enumerates(walks[i], ToCreate(c.updateOld[i], c.updateNew[i]));
    }
  }

  lemma FlatWalks(c: Changes, walks: seq<seq<string>>)
    requires |walks| == Min(|c.updateOld|, |c.updateNew|)
    ensures Flat(Walked(Items(c, walks))) == Flat(TargetLists(c.create)) + Flat(walks)
  {
    var adds, none := TargetLists(c.create), seq(|c.delete|, i => []);
    WalkedItems(c, walks);
    FlatAppend(adds + walks, none);
    FlatAppend(adds, walks);
    FlatOfEmpty(none);
  }

  lemma WalkedItems(c: Changes, walks: seq<seq<string>>)
    requires |walks| == Min(|c.updateOld|, |c.updateNew|)
    ensures Walked(Items(c, walks)) == TargetLists(c.create) + walks + seq(|c.delete|, i => [])
  {
    var items, all := Items(c, walks), TargetLists(c.create) + walks + seq(|c.delete|, i => []);
    forall i | 0 <= i < |items| ensures Walked(items)[i] == all[i] {
      ItemAt(c, walks, i);
    }
  }

  /** A delete entry asks for the record: its zone and name, its type in any case, and its data listed or none. */
  predicate DeleteAsks(zones: seq<string>, e: Endpoint, z: string, r: DomainRecord) {
    && MapName(e.dnsName, zones) == Some((z, r.name))
    && EqIgnoreCase(r.recordType, e.recordType)
    && (e.targets == [] || r.data in e.targets)
  }

  /** An update pair asks for the record: its zone and name, the old type in any case, and its data old, not new. */
  predicate UpdateAsks(zones: seq<string>, was: Endpoint, now: Endpoint, z: string, r: DomainRecord) {
    && MapName(now.dnsName, zones) == Some((z, r.name))
    && EqIgnoreCase(r.recordType, was.recordType)
    && r.data in was.targets && r.data !in now.targets
  }

  ghost predicate SomeDeleteAsks(zones: seq<string>, es: seq<Endpoint>, z: string, r: DomainRecord) {
    exists i :: 0 <= i < |es| && DeleteAsks(zones, es[i], z, r)
  }

  ghost predicate SomeUpdateAsks(zones: seq<string>, was: seq<Endpoint>, now: seq<Endpoint>, z: string,
      r: DomainRecord) {
    exists i :: 0 <= i < |was| && i < |now| && UpdateAsks(zones, was[i], now[i], z, r)
  }

  ghost predicate SomeEntryAsks(zones: seq<string>, c: Changes, z: string, r: DomainRecord) {
    SomeDeleteAsks(zones, c.delete, z, r) || SomeUpdateAsks(zones, c.updateOld, c.updateNew, z, r)
  }

  predicate ItemAsks(zones: seq<string>, item: Item, z: string, r: DomainRecord) {
    match item
    case AddItem(_) => false
    case UpdateItem(was, now, _) => UpdateAsks(zones, was, now, z, r)
    case DeleteItem(e) => DeleteAsks(zones, e, z, r)
  }

  lemma ItemDeletes(zones: seq<string>, s: Store, snapshot: Snapshot, item: Item, z: string, r: DomainRecord)
    requires IdsOk(s) && In(s, z, r) && Block(zones, snapshot, item).Some?
    requires !item.AddItem? && MapName(Subject(item).dnsName, zones).value.0 == z ==>
               Listed(snapshot, z) == Listing(s, z)
    ensures HasCall(zones, snapshot, item, Delete(z, r.id)) <==> ItemAsks(zones, item, z, r)
  {
    if HasCall(zones, snapshot, item, Delete(z, r.id)) {
      var q := DeletesFromSnapshot(zones, snapshot, item, Delete(z, r.id));
      SameId(s, z, r, q);
    }
    if ItemAsks(zones, item, z, r) {
      CallsDelete(zones, snapshot, item, z, r);
    }
  }

  ghost predicate SomeItemAsks(zones: seq<string>, items: seq<Item>, z: string, r: DomainRecord) {
    exists i :: 0 <= i < |items| && ItemAsks(zones, items[i], z, r)
  }

  lemma ItemIsEntry(zones: seq<string>, c: Changes, walks: seq<seq<string>>, i: nat, z: string, r: DomainRecord)
    requires |walks| == Min(|c.updateOld|, |c.updateNew|)
    requires i < |Items(c, walks)| && ItemAsks(zones, Items(c, walks)[i], z, r)
    ensures SomeEntryAsks(zones, c, z, r)
  {
    var j := ItemCase(c, walks, i);
    if Items(c, walks)[i].UpdateItem? {
      UpdateIsAsked(zones, c, j, z, r);
    } else {
      DeleteIsAsked(zones, c, j, z, r);
    }
  }

  lemma UpdateIsAsked(zones: seq<string>, c: Changes, i: nat, z: string, r: DomainRecord)
    requires i < |c.updateOld| && i < |c.updateNew| && UpdateAsks(zones, c.updateOld[i], c.updateNew[i], z, r)
    ensures SomeEntryAsks(zones, c, z, r)
  {
  }

  lemma DeleteIsAsked(zones: seq<string>, c: Changes, i: nat, z: string, r: DomainRecord)
    requires i < |c.delete| && DeleteAsks(zones, c.delete[i], z, r)
    ensures SomeEntryAsks(zones, c, z, r)
  {
  }

  lemma EntryIsItem(zones: seq<string>, c: Changes, walks: seq<seq<string>>, z: string, r: DomainRecord)
    requires |walks| == Min(|c.updateOld|, |c.updateNew|) && SomeEntryAsks(zones, c, z, r)
    ensures SomeItemAsks(zones, Items(c, walks), z, r)
  {
    var items := Items(c, walks);
    if i :| 0 <= i < |c.delete| && DeleteAsks(zones, c.delete[i], z, r) {
      DeletePlace(c, walks, i);
      assert ItemAsks(zones, items[|c.create| + |walks| + i], z, r);
    } else {
      var i :| 0 <= i < |c.updateOld| && i < |c.updateNew| && UpdateAsks(zones, c.updateOld[i], c.updateNew[i], z, r);
      UpdatePlace(c, walks, i);
      assert ItemAsks(zones, items[|c.create| + i], z, r);
    }
  }

  /** An accepted POST deletes exactly the stored records that some delete or update entry asks for, whatever the
      store. */
  lemma DeletesExactly(zones: seq<string>, s: Store, c: Changes, walks: seq<seq<string>>, z: string, r: DomainRecord)
    requires |walks| == Min(|c.updateOld|, |c.updateNew|) && Acceptable(zones, c)
    requires IdsOk(s) && In(s, z, r)
    ensures Delete(z, r.id) in PostPlan(zones, s, c, walks).ops <==> SomeEntryAsks(zones, c, z, r)
  {
    CompleteExact(zones, s, c, walks);
    var items, snapshot, d := Items(c, walks), SnapshotOf(zones, s, c), Delete(z, r.id);
    forall i | 0 <= i < |items| ensures HasCall(zones, snapshot, items[i], d) <==> ItemAsks(zones, items[i], z, r) {
      BlockExists(zones, snapshot, items, i);
      if !items[i].AddItem? { SnapshotCovers(zones, s, c, walks, items[i]); }
      ItemDeletes(zones, s, snapshot, items[i], z, r);
    }
    if d in PostPlan(zones, s, c, walks).ops {
      var i := PlanBlocks(zones, snapshot, items, d);
      ItemIsEntry(zones, c, walks, i, z, r);
    }
    if SomeEntryAsks(zones, c, z, r) {
      EntryIsItem(zones, c, walks, z, r);
      var i :| 0 <= i < |items| && ItemAsks(zones, items[i], z, r);
      BlockInPlan(zones, snapshot, items, i, d);
    }
  }
}
