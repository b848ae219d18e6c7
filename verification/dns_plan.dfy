/** What `post_records` asks of the record service, as a plan computed from the change set and
    the snapshot taken before any write, and what that plan does to the stored targets. */
module DnsPlan {
  import opened Wrappers
  import opened Text
  import opened DnsNames
  import opened DnsRecords
  import opened DnsStore

  datatype Changes = Changes(
    create: seq<Endpoint>,
    updateOld: seq<Endpoint>,
    updateNew: seq<Endpoint>,
    delete: seq<Endpoint>)

  /** One entry of a change set. An update carries the order in which the hash set of targets to
      create happens to be walked. */
  datatype Item =
    | AddItem(e: Endpoint)
    | UpdateItem(was: Endpoint, now: Endpoint, walk: seq<string>)
    | DeleteItem(e: Endpoint)

  function Subject(item: Item): Endpoint {
    if item.UpdateItem? then item.now else item.e
  }

  function ToCreate(was: Endpoint, now: Endpoint): set<string> {
    (set t | t in now.targets) - (set t | t in was.targets)
  }

  function ToDelete(was: Endpoint, now: Endpoint): set<string> {
    (set t | t in was.targets) - (set t | t in now.targets)
  }

  /** The entries in the order POST handles them; old and new update lists are zipped. */
  function UpdateItems(was: seq<Endpoint>, now: seq<Endpoint>, walks: seq<seq<string>>): (r: seq<Item>)
    requires |walks| == Min(|was|, |now|)
    ensures |r| == |walks|
    ensures forall i :: 0 <= i < |r| ==> r[i] == UpdateItem(was[i], now[i], walks[i])
  {
    seq(|walks|, i requires 0 <= i < |walks| => UpdateItem(was[i], now[i], walks[i]))
  }

  function AddItems(es: seq<Endpoint>): (r: seq<Item>)
    ensures |r| == |es| && forall i :: 0 <= i < |r| ==> r[i] == AddItem(es[i])
  {
    seq(|es|, i requires 0 <= i < |es| => AddItem(es[i]))
  }

  function DeleteItems(es: seq<Endpoint>): (r: seq<Item>)
    ensures |r| == |es| && forall i :: 0 <= i < |r| ==> r[i] == DeleteItem(es[i])
  {
    seq(|es|, i requires 0 <= i < |es| => DeleteItem(es[i]))
  }

  function Items(c: Changes, walks: seq<seq<string>>): (r: seq<Item>)
    requires |walks| == Min(|c.updateOld|, |c.updateNew|)
    ensures |r| == |c.create| + |walks| + |c.delete|
  {
    AddItems(c.create) + UpdateItems(c.updateOld, c.updateNew, walks) + DeleteItems(c.delete)
  }

  lemma ItemAt(c: Changes, walks: seq<seq<string>>, i: nat)
    requires |walks| == Min(|c.updateOld|, |c.updateNew|) && i < |Items(c, walks)|
    ensures var a, b := |c.create|, |c.create| + |walks|;
      Items(c, walks)[i] == if i < a then AddItem(c.create[i])
                            else if i < b then UpdateItem(c.updateOld[i - a], c.updateNew[i - a], walks[i - a])
                            else DeleteItem(c.delete[i - b])
  {
  }

  // ---------- provider-specific numbers ----------

  /** `parse_provider_specific_i64`: `None` when the value does not parse, otherwise the number
      of the first property with that name, if any. */
  function ProviderNumber(properties: seq<(string, string)>, key: string): Option<Option<int>> {
    if properties == [] then Some(None)
    else if EqIgnoreCase(properties[0].0, key) then
      match ParseI64(properties[0].1)
      case Some(n) => Some(Some(n))
      case None => None
    else ProviderNumber(properties[1..], key)
  }

  datatype Numbers = Numbers(priority: Option<int>, port: Option<int>, weight: Option<int>)

  function EndpointNumbers(e: Endpoint): Option<Numbers> {
    var priority := ProviderNumber(e.providerSpecific, "priority");
    var port := ProviderNumber(e.providerSpecific, "port");
    var weight := ProviderNumber(e.providerSpecific, "weight");
    if priority.Some? && port.Some? && weight.Some?
    then Some(Numbers(priority.value, port.value, weight.value))
    else None
  }

  // ---------- the calls of one entry ----------

  function CreateOp(zone: string, name: string, e: Endpoint, n: Numbers, target: string): Op {
    Create(zone, Request(e.recordType, name, target, n.priority, n.port, n.weight))
  }

  function CreateOps(zone: string, name: string, e: Endpoint, n: Numbers, targets: seq<string>): (ops: seq<Op>)
    ensures |ops| == |targets|
    ensures forall i :: 0 <= i < |ops| ==> ops[i] == CreateOp(zone, name, e, n, targets[i])
  {
    seq(|targets|, i requires 0 <= i < |targets| => CreateOp(zone, name, e, n, targets[i]))
  }

  /** The record test of the delete loops. */
  predicate Picked(r: DomainRecord, name: string, recordType: string, all: bool, data: set<string>) {
    r.name == name && EqIgnoreCase(r.recordType, recordType) && (all || r.data in data)
  }

  function DeleteOps(zone: string, records: seq<DomainRecord>, name: string, recordType: string,
                     all: bool, data: set<string>): (ops: seq<Op>)
    ensures forall op :: op in ops <==>
              exists r :: r in records && Picked(r, name, recordType, all, data) && op == Delete(zone, r.id)
  {
    if records == [] then []
    else
      var rest := DeleteOps(zone, records[1..], name, recordType, all, data);
      if Picked(records[0], name, recordType, all, data) then [Delete(zone, records[0].id)] + rest else rest
  }

  type Snapshot = map<string, seq<DomainRecord>>

  function Listed(snapshot: Snapshot, zone: string): seq<DomainRecord> {
    if zone in snapshot then snapshot[zone] else []
  }

  /** The calls for one entry, or `None` when its name has no zone or a number does not parse. */
  function Block(zones: seq<string>, snapshot: Snapshot, item: Item): Option<seq<Op>> {
    match MapName(Subject(item).dnsName, zones)
    case None => None
    case Some((zone, name)) =>
      match item
      case AddItem(e) =>
        var n := EndpointNumbers(e);
        if n.None? then None else Some(CreateOps(zone, name, e, n.value, e.targets))
      case UpdateItem(was, now, walk) =>
        var n := EndpointNumbers(now);
        if n.None? then None
        else Some(CreateOps(zone, name, now, n.value, walk)
                  + DeleteOps(zone, Listed(snapshot, zone), name, was.recordType, false, ToDelete(was, now)))
      case DeleteItem(e) =>
        Some(DeleteOps(zone, Listed(snapshot, zone), name, e.recordType, e.targets == [], set t | t in e.targets))
  }

  /** The calls up to the first entry that has none, and whether there was no such entry. */
  datatype Plan = Plan(ops: seq<Op>, complete: bool)

  function Then(p: Plan, q: Plan): Plan {
    if p.complete then Plan(p.ops + q.ops, q.complete) else p
  }

  function BlockPlan(zones: seq<string>, snapshot: Snapshot, item: Item): Plan {
    match Block(zones, snapshot, item)
    case None => Plan([], false)
    case Some(ops) => Plan(ops, true)
  }

  function PlanOf(zones: seq<string>, snapshot: Snapshot, items: seq<Item>): Plan {
    if items == [] then Plan([], true)
    else Then(BlockPlan(zones, snapshot, items[0]), PlanOf(zones, snapshot, items[1..]))
  }

  lemma ThenAssociative(p: Plan, q: Plan, r: Plan)
    ensures Then(Then(p, q), r) == Then(p, Then(q, r))
  {
    assert (p.ops + q.ops) + r.ops == p.ops + (q.ops + r.ops);
  }

  lemma ThenComplete(p: Plan, q: Plan)
    requires Then(p, q).complete
    ensures p.complete && q.complete && Then(p, q).ops == p.ops + q.ops
  {
  }

  lemma BlockPlanComplete(zones: seq<string>, snapshot: Snapshot, item: Item)
    requires BlockPlan(zones, snapshot, item).complete
    ensures Block(zones, snapshot, item).Some?
    ensures BlockPlan(zones, snapshot, item).ops == Block(zones, snapshot, item).value
  {
  }

  lemma {:induction false} PlanConcat(zones: seq<string>, snapshot: Snapshot, a: seq<Item>, b: seq<Item>)
    ensures PlanOf(zones, snapshot, a + b) == Then(PlanOf(zones, snapshot, a), PlanOf(zones, snapshot, b))
    decreases a
  {
    if a == [] {
      assert a + b == b;
    } else {
      assert (a + b)[1..] == a[1..] + b;
      PlanConcat(zones, snapshot, a[1..], b);
      ThenAssociative(BlockPlan(zones, snapshot, a[0]), PlanOf(zones, snapshot, a[1..]), PlanOf(zones, snapshot, b));
    }
  }

  // ---------- the snapshot ----------

  function NeedingSnapshot(c: Changes): seq<Endpoint> {
    c.updateOld + c.updateNew + c.delete
  }

  /** Every update and delete endpoint has a zone; otherwise POST fails before any write. */
  predicate AllMapped(zones: seq<string>, es: seq<Endpoint>) {
    forall e :: e in es ==> HasZone(zones, e)
  }

  predicate HasZone(zones: seq<string>, e: Endpoint) {
    MapName(e.dnsName, zones).Some?
  }

  function ZoneOf(zones: seq<string>, e: Endpoint): string
    requires HasZone(zones, e)
  {
    MapName(e.dnsName, zones).value.0
  }

  function NeededZones(zones: seq<string>, es: seq<Endpoint>): set<string>
    requires AllMapped(zones, es)
  {
    set e | e in es :: ZoneOf(zones, e)
  }

  function SnapshotOf(zones: seq<string>, s: Store, c: Changes): Snapshot
    requires AllMapped(zones, NeedingSnapshot(c))
  {
    map z | z in NeededZones(zones, NeedingSnapshot(c)) :: Listing(s, z)
  }

  function PostPlan(zones: seq<string>, s: Store, c: Changes, walks: seq<seq<string>>): Plan
    requires |walks| == Min(|c.updateOld|, |c.updateNew|)
  {
    if !AllMapped(zones, NeedingSnapshot(c)) then Plan([], false)
    else PlanOf(zones, SnapshotOf(zones, s, c), Items(c, walks))
  }

  /** A walk visits each element of the set once. */
  ghost predicate Enumerates(walk: seq<string>, targets: set<string>) {
    && (forall t :: t in walk <==> t in targets)
    && (forall i, j :: 0 <= i < j < |walk| ==> walk[i] != walk[j])
  }

  ghost predicate WalksOk(c: Changes, walks: seq<seq<string>>) {
    && |walks| == Min(|c.updateOld|, |c.updateNew|)
    && forall i :: 0 <= i < |walks| ==> Enumerates(walks[i], ToCreate(c.updateOld[i], c.updateNew[i]))
  }

  // ---------- what a plan contains ----------

  predicate HasCall(zones: seq<string>, snapshot: Snapshot, item: Item, op: Op) {
    var block := Block(zones, snapshot, item);
    block.Some? && op in block.value
  }

  /** An entry creates records of its own name and type in its own zone. */
  lemma CreatesInPlace(zones: seq<string>, snapshot: Snapshot, item: Item, op: Op)
    requires HasCall(zones, snapshot, item, op) && op.Create?
    ensures MapName(Subject(item).dnsName, zones) == Some((op.zone, op.request.name))
    ensures op.request.recordType == Subject(item).recordType
  {
  }

  /** An entry deletes records its zone's snapshot lists. */
  lemma DeletesFromSnapshot(zones: seq<string>, snapshot: Snapshot, item: Item, op: Op) returns (r: DomainRecord)
    requires HasCall(zones, snapshot, item, op) && op.Delete?
    ensures !item.AddItem? && MapName(Subject(item).dnsName, zones) == Some((op.zone, r.name))
    ensures r in Listed(snapshot, op.zone) && r.id == op.id && Removed(item, r.data)
    ensures EqIgnoreCase(r.recordType, TypeDeleted(item))
  {
    var (zone, name) := MapName(Subject(item).dnsName, zones).value;
    match item
    case AddItem(_) =>
    case UpdateItem(was, now, _) =>
      r :| r in Listed(snapshot, zone) && Picked(r, name, was.recordType, false, ToDelete(was, now))
           && op == Delete(zone, r.id);
    case DeleteItem(e) =>
      r :| r in Listed(snapshot, zone)
           && Picked(r, name, e.recordType, e.targets == [], set t | t in e.targets)
           && op == Delete(zone, r.id);
  }

  function TypeDeleted(item: Item): string {
    if item.UpdateItem? then item.was.recordType else item.e.recordType
  }

  ghost predicate Removed(item: Item, data: string) {
    match item
    case AddItem(_) => false
    case UpdateItem(was, now, _) => data in ToDelete(was, now)
    case DeleteItem(e) => e.targets == [] || data in e.targets
  }

  lemma {:induction false} PlanBlocks(zones: seq<string>, snapshot: Snapshot, items: seq<Item>, op: Op) returns (i: nat)
    requires op in PlanOf(zones, snapshot, items).ops
    ensures i < |items| && HasCall(zones, snapshot, items[i], op)
    decreases items
  {
    var first, rest := Block(zones, snapshot, items[0]).value, PlanOf(zones, snapshot, items[1..]).ops;
    assert op in first + rest;
    if op in first {
      i := 0;
    } else {
      i := PlanBlocks(zones, snapshot, items[1..], op);
      i := i + 1;
    }
  }

  lemma {:induction false} BlockExists(zones: seq<string>, snapshot: Snapshot, items: seq<Item>, i: nat)
    requires i < |items| && PlanOf(zones, snapshot, items).complete
    ensures Block(zones, snapshot, items[i]).Some?
    decreases items
  {
    var first, rest := BlockPlan(zones, snapshot, items[0]), PlanOf(zones, snapshot, items[1..]);
    ThenComplete(first, rest);
    if i > 0 {
      BlockExists(zones, snapshot, items[1..], i - 1);
    } else {
      BlockPlanComplete(zones, snapshot, items[0]);
    }
  }

  lemma {:induction false} BlockInPlan(zones: seq<string>, snapshot: Snapshot, items: seq<Item>, i: nat, op: Op)
    requires i < |items| && PlanOf(zones, snapshot, items).complete
    requires HasCall(zones, snapshot, items[i], op)
    ensures op in PlanOf(zones, snapshot, items).ops
    decreases items
  {
    var first, rest := BlockPlan(zones, snapshot, items[0]), PlanOf(zones, snapshot, items[1..]);
    assert PlanOf(zones, snapshot, items).ops == first.ops + rest.ops;
    if i > 0 {
      BlockInPlan(zones, snapshot, items[1..], i - 1, op);
    }
  }

  /** The snapshot taken by a POST lists every zone its update and delete entries touch. */
  lemma SnapshotCovers(zones: seq<string>, s: Store, c: Changes, walks: seq<seq<string>>, item: Item)
    requires |walks| == Min(|c.updateOld|, |c.updateNew|) && AllMapped(zones, NeedingSnapshot(c))
    requires item in Items(c, walks) && !item.AddItem?
    ensures MapName(Subject(item).dnsName, zones).Some?
    ensures var zone := MapName(Subject(item).dnsName, zones).value.0;
      zone in SnapshotOf(zones, s, c) && SnapshotOf(zones, s, c)[zone] == Listing(s, zone)
  {
    var i :| 0 <= i < |Items(c, walks)| && Items(c, walks)[i] == item;
    ItemAt(c, walks, i);
    var e := Subject(item);
    assert e in c.updateNew || e in c.delete;
    assert e in NeedingSnapshot(c);
  }

  lemma DeletesAreListed(zones: seq<string>, s: Store, c: Changes, walks: seq<seq<string>>, op: Op)
    requires |walks| == Min(|c.updateOld|, |c.updateNew|)
    requires op in PostPlan(zones, s, c, walks).ops && op.Delete?
    ensures AllMapped(zones, NeedingSnapshot(c)) && op.zone in SnapshotOf(zones, s, c)
    ensures exists r :: In(s, op.zone, r) && r.id == op.id
  {
    var snapshot, items := SnapshotOf(zones, s, c), Items(c, walks);
    var i := PlanBlocks(zones, snapshot, items, op);
    var r := DeletesFromSnapshot(zones, snapshot, items[i], op);
    SnapshotCovers(zones, s, c, walks, items[i]);
    assert In(s, op.zone, r);
  }

  /** Batch discipline, for every store and change set: nothing is written unless every update and
      delete endpoint has a zone; each id deleted was listed in the snapshot of its zone, so a
      record created by this call is not deleted by it. */
  lemma BatchDiscipline(zones: seq<string>, s: Store, c: Changes, walks: seq<seq<string>>)
    requires |walks| == Min(|c.updateOld|, |c.updateNew|)
    ensures !AllMapped(zones, NeedingSnapshot(c)) ==> PostPlan(zones, s, c, walks) == Plan([], false)
    ensures forall op :: op in PostPlan(zones, s, c, walks).ops && op.Delete? ==>
              && op.zone in SnapshotOf(zones, s, c)
              && (exists r :: In(s, op.zone, r) && r.id == op.id)
              && (IdsOk(s) ==> op.id < s.nextId)
  {
    forall op | op in PostPlan(zones, s, c, walks).ops && op.Delete?
      ensures op.zone in SnapshotOf(zones, s, c)
      ensures exists r :: In(s, op.zone, r) && r.id == op.id
    {
      DeletesAreListed(zones, s, c, walks, op);
    }
  }

  // ---------- keys and the change an entry asks for ----------

  /** The key under which GET will report what an endpoint names. It is the normalised name
      unless that name is literally `@.` before a zone, see `DnsNames.JoinOfSplit`. */
  function KeyFor(zones: seq<string>, e: Endpoint): Option<Key> {
    match MapName(e.dnsName, zones)
    case None => None
    case Some((zone, name)) => Some((Join(zone, name), e.recordType))
  }

  /** What one entry asks for, on the targets stored under its key. */
  ghost function Asked(item: Item, stored: set<string>): set<string> {
    match item
    case AddItem(e) => stored + Elements(e.targets)
    case UpdateItem(was, now, _) => (stored - ToDelete(was, now)) + ToCreate(was, now)
    case DeleteItem(e) => if e.targets == [] then {} else stored - Elements(e.targets)
  }

  ghost predicate ItemFor(zones: seq<string>, items: seq<Item>, i: int, key: Key) {
    0 <= i < |items| && KeyFor(zones, Subject(items[i])) == Some(key)
  }

  /** The targets a change set asks for under a key. */
  ghost function Desired(zones: seq<string>, items: seq<Item>, key: Key, stored: set<string>): set<string> {
    if i :| ItemFor(zones, items, i, key) then Asked(items[i], stored) else stored
  }

  /** No two entries name the same key. */
  ghost predicate DistinctKeys(zones: seq<string>, items: seq<Item>) {
    forall i, j :: 0 <= i < j < |items| ==>
      KeyFor(zones, Subject(items[i])).None? || KeyFor(zones, Subject(items[i])) != KeyFor(zones, Subject(items[j]))
  }

  /** Record types in canonical (upper) case, and an update keeps the type of its key. */
  ghost predicate CanonicalItem(item: Item) {
    && NoLowerCase(Subject(item).recordType)
    && (item.UpdateItem? ==>
          item.was.recordType == item.now.recordType && Enumerates(item.walk, ToCreate(item.was, item.now)))
  }

  ghost predicate CanonicalItems(items: seq<Item>) {
    forall i :: 0 <= i < |items| ==> CanonicalItem(items[i])
  }

  /** Every record lives in the most specific zone of its full name, with a lower-case name and a
      canonical type; ids are distinct. */
  ghost predicate WellFormed(zones: seq<string>, s: Store) {
    && NormalZones(zones)
    && s.records.Keys == (set z | z in zones)
    && IdsOk(s)
    && forall z, r :: In(s, z, r) ==> WellPlaced(zones, z, r)
  }

  ghost predicate WellPlaced(zones: seq<string>, z: string, r: DomainRecord) {
    MapName(Join(z, r.name), zones) == Some((z, r.name)) && NoLowerCase(r.recordType)
  }

  // ---------- one entry's calls and its key ----------

  ghost predicate ActsOn(s: Store, op: Op, key: Key) {
    match op
    case Create(_, _) => OpKey(op) == key
    case Delete(z, id) => exists r :: In(s, z, r) && r.id == id && KeyOf(z, r) == key
  }

  /** The snapshot lists the zone of an update or delete entry as it is in the store. */
  ghost predicate FitsItem(zones: seq<string>, s: Store, snapshot: Snapshot, item: Item) {
    !item.AddItem? && MapName(Subject(item).dnsName, zones).Some? ==>
      var zone := MapName(Subject(item).dnsName, zones).value.0;
      Listed(snapshot, zone) == Listing(s, zone)
  }

  /** Each call of an entry acts on the entry's key. */
  lemma BlockActsOnKey(zones: seq<string>, s: Store, snapshot: Snapshot, item: Item, op: Op)
    requires WellFormed(zones, s) && CanonicalItem(item) && FitsItem(zones, s, snapshot, item)
    requires HasCall(zones, snapshot, item, op)
    ensures op.zone in zones && KeyFor(zones, Subject(item)).Some?
    ensures ActsOn(s, op, KeyFor(zones, Subject(item)).value)
  {
    NormalZonesAreSafe(zones);
    SplitStable(Subject(item).dnsName, zones);
    if op.Delete? {
      var r := DeletesFromSnapshot(zones, snapshot, item, op);
      assert In(s, op.zone, r) && WellPlaced(zones, op.zone, r);
      EqIgnoreCaseExact(r.recordType, Subject(item).recordType);
    } else {
      CreatesInPlace(zones, snapshot, item, op);
    }
  }

  lemma OneKeyPerCall(s: Store, op: Op, a: Key, b: Key)
    requires IdsOk(s) && ActsOn(s, op, a) && ActsOn(s, op, b)
    ensures a == b
  {
    if op.Delete? {
      var r :| In(s, op.zone, r) && r.id == op.id && KeyOf(op.zone, r) == a;
      var q :| In(s, op.zone, q) && q.id == op.id && KeyOf(op.zone, q) == b;
      SameId(s, op.zone, r, q);
    }
  }

  /** A stored record with an entry's key sits where the entry looks for it. */
  lemma RecordOfKey(zones: seq<string>, s: Store, e: Endpoint, z: string, r: DomainRecord)
    requires WellFormed(zones, s) && In(s, z, r)
    requires KeyFor(zones, e) == Some(KeyOf(z, r))
    ensures MapName(e.dnsName, zones) == Some((z, r.name)) && r.recordType == e.recordType
  {
    assert WellPlaced(zones, z, r);
    NormalZonesAreSafe(zones);
    SplitStable(e.dnsName, zones);
  }

  /** Which data an entry's calls create under its key. */
  lemma BlockCreates(zones: seq<string>, snapshot: Snapshot, item: Item, data: string)
    requires CanonicalItem(item) && Block(zones, snapshot, item).Some?
    ensures KeyFor(zones, Subject(item)).Some?
    ensures CreatedData(Block(zones, snapshot, item).value, KeyFor(zones, Subject(item)).value, data)
      <==> data in Added(item)
  {
    var ops := Block(zones, snapshot, item).value;
    var (zone, name) := MapName(Subject(item).dnsName, zones).value;
    if data in Added(item) {
      var targets := if item.AddItem? then item.e.targets else item.walk;
      var i :| 0 <= i < |targets| && targets[i] == data;
      var n := EndpointNumbers(Subject(item)).value;
      assert ops[i] == CreateOp(zone, name, Subject(item), n, data) && ops[i] in ops;
    }
  }

  /** Which stored records an entry's calls delete under its key. */
  lemma BlockDeletes(zones: seq<string>, s: Store, snapshot: Snapshot, item: Item, z: string, r: DomainRecord)
    requires WellFormed(zones, s) && CanonicalItem(item) && FitsItem(zones, s, snapshot, item)
    requires Block(zones, snapshot, item).Some?
    requires In(s, z, r) && KeyFor(zones, Subject(item)) == Some(KeyOf(z, r))
    ensures HasCall(zones, snapshot, item, Delete(z, r.id)) <==> Removed(item, r.data)
  {
    RecordOfKey(zones, s, Subject(item), z, r);
    assert EqIgnoreCase(r.recordType, TypeDeleted(item));
    assert MapName(Subject(item).dnsName, zones) == Some((z, r.name));
    if Removed(item, r.data) {
      assert r in Listed(snapshot, z);
      CallsDelete(zones, snapshot, item, z, r);
    }
    if HasCall(zones, snapshot, item, Delete(z, r.id)) {
      var q := DeletesFromSnapshot(zones, snapshot, item, Delete(z, r.id));
      SameId(s, z, r, q);
    }
  }

  lemma CallsDelete(zones: seq<string>, snapshot: Snapshot, item: Item, z: string, r: DomainRecord)
    requires Block(zones, snapshot, item).Some? && Removed(item, r.data) && r in Listed(snapshot, z)
    requires MapName(Subject(item).dnsName, zones) == Some((z, r.name))
    requires EqIgnoreCase(r.recordType, TypeDeleted(item))
    ensures HasCall(zones, snapshot, item, Delete(z, r.id))
  {
    match item
    case UpdateItem(was, now, _) =>
      assert Picked(r, r.name, was.recordType, false, ToDelete(was, now));
    case DeleteItem(e) =>
      assert Picked(r, r.name, e.recordType, e.targets == [], set t | t in e.targets);
  }

  ghost function Added(item: Item): set<string> {
    match item
    case AddItem(e) => Elements(e.targets)
    case UpdateItem(was, now, _) => ToCreate(was, now)
    case DeleteItem(_) => {}
  }

  lemma AskedIs(item: Item, stored: set<string>, data: string)
    ensures data in Asked(item, stored) <==> (data in stored && !Removed(item, data)) || data in Added(item)
    ensures !(data in Added(item) && Removed(item, data))
  {
  }
}
