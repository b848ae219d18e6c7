/** The webhook handlers as they run: loops over the change set that call the record service. */
module DnsWebhook {
  import opened Wrappers
  import opened Text
  import opened DnsNames
  import opened DnsRecords
  import opened DnsStore
  import opened DnsPlan

  /** The record service as a POST meets it. It answers `budget` more create and delete calls and
      then stops answering; a call it refuses is an error without effect. */
  class RecordService {
    const zones: seq<string>
    var store: Store
    var budget: nat

    constructor (zones: seq<string>, store: Store, budget: nat)
      ensures this.zones == zones && this.store == store && this.budget == budget
    {
      this.zones, this.store, this.budget := zones, store, budget;
    }

    /** One create or delete call. */
    method Call(op: Op) returns (ok: bool)
      modifies this
      ensures ok <==> old(budget) > 0 && Possible(old(store), op)
      ensures store == if ok then Step(old(store), op) else old(store)
      ensures budget == if ok then old(budget) - 1 else old(budget)
    {
      ok := budget > 0 && (
        match op
        case Create(zone, _) => zone in store.records
        case Delete(zone, id) => zone in store.records && (exists r | r in store.records[zone] :: r.id == id));
      if ok {
        store := Step(store, op);
        budget := budget - 1;
      }
    }

    ghost function Now(): (Store, nat)
      reads this
    {
      (store, budget)
    }

    /** The creates of one entry, one target after the other. */
    method CreateAll(zone: string, name: string, e: Endpoint, n: Numbers, targets: seq<string>) returns (ok: bool)
      modifies this
      ensures (store, budget, ok)
        == Outcome(old(store), CreateOps(zone, name, e, n, targets), true, old(budget))
    {
      ghost var all := CreateOps(zone, name, e, n, targets);
      for i := 0 to |targets|
        invariant Outcome(old(store), all, true, old(budget)) == Outcome(store, all[i..], true, budget)
      {
        assert all[i..][0] == CreateOp(zone, name, e, n, targets[i]) && all[i..][1..] == all[i + 1..];
        var done := Call(CreateOp(zone, name, e, n, targets[i]));
        if !done { return false; }
      }
      return true;
    }

    /** The deletes of one entry, walking the snapshot of its zone. */
    method DeleteSelected(zone: string, records: seq<DomainRecord>, name: string, recordType: string,
                          all: bool, data: set<string>) returns (ok: bool)
      modifies this
      ensures (store, budget, ok)
        == Outcome(old(store), DeleteOps(zone, records, name, recordType, all, data), true, old(budget))
    {
      for i := 0 to |records|
        invariant Outcome(old(store), DeleteOps(zone, records, name, recordType, all, data), true, old(budget))
          == Outcome(store, DeleteOps(zone, records[i..], name, recordType, all, data), true, budget)
      {
        var record := records[i];
        assert records[i..][0] == record && records[i..][1..] == records[i + 1..];
        if record.name != name || !EqIgnoreCase(record.recordType, recordType) {
          continue;
        }
        if all || record.data in data {
          var rest := DeleteOps(zone, records[i + 1..], name, recordType, all, data);
          assert ([Delete(zone, record.id)] + rest)[1..] == rest;
          var done := Call(Delete(zone, record.id));
          if !done { return false; }
        }
      }
      return true;
    }

    /** The first loop of `post_records`. */
    method ApplyCreates(endpoints: seq<Endpoint>, ghost snapshot: Snapshot) returns (ok: bool)
      modifies this
      ensures var plan := PlanOf(zones, snapshot, AddItems(endpoints));
        (store, budget, ok) == Outcome(old(store), plan.ops, plan.complete, old(budget))
    {
      ghost var items := AddItems(endpoints);
      for i := 0 to |endpoints|
        invariant Reaches(old(Now()), Now(), snapshot, items, i)
      {
        var e := endpoints[i];
        label before:
        var mapped := MapEndpointToDomain(e.dnsName, zones);
        var numbers := EndpointNumbers(e);
        if mapped.None? || numbers.None? {
          Stops(old(Now()), Now(), snapshot, items, i);
          return false;
        }
        var (zone, name) := mapped.value;
        var done := CreateAll(zone, name, e, numbers.value, e.targets);
        Continues(old(Now()), old@before(Now()), Now(), done, snapshot, items, i);
        if !done { return false; }
      }
      ReachedEnd(old(Now()), Now(), snapshot, items);
      return true;
    }

    /** `apply_updates` */
    method ApplyUpdates(snapshot: Snapshot, was: seq<Endpoint>, now: seq<Endpoint>, walks: seq<seq<string>>)
      returns (ok: bool)
      requires |walks| == Min(|was|, |now|)
      modifies this
      ensures var plan := PlanOf(zones, snapshot, UpdateItems(was, now, walks));
        (store, budget, ok) == Outcome(old(store), plan.ops, plan.complete, old(budget))
    {
      ghost var items := UpdateItems(was, now, walks);
      for i := 0 to |walks|
        invariant Reaches(old(Now()), Now(), snapshot, items, i)
      {
        label before:
        var mapped := MapEndpointToDomain(now[i].dnsName, zones);
        var numbers := EndpointNumbers(now[i]);
        if mapped.None? || numbers.None? {
          Stops(old(Now()), Now(), snapshot, items, i);
          return false;
        }
        var (zone, name) := mapped.value;
        var done := UpdateOne(snapshot, zone, name, was[i], now[i], numbers.value, walks[i]);
        Continues(old(Now()), old@before(Now()), Now(), done, snapshot, items, i);
        if !done { return false; }
      }
      ReachedEnd(old(Now()), Now(), snapshot, items);
      return true;
    }

    /** One round of `apply_updates`: new targets first, then the ones no longer wanted. */
    method UpdateOne(snapshot: Snapshot, zone: string, name: string, was: Endpoint, now: Endpoint,
                     numbers: Numbers, walk: seq<string>) returns (ok: bool)
      modifies this
      ensures (store, budget, ok)
        == Outcome(old(store),
                   CreateOps(zone, name, now, numbers, walk)
                   + DeleteOps(zone, Listed(snapshot, zone), name, was.recordType, false, ToDelete(was, now)),
                   true, old(budget))
    {
      var toDelete := ToDelete(was, now);
      ghost var deletes := DeleteOps(zone, Listed(snapshot, zone), name, was.recordType, false, toDelete);
      OutcomeAppend(store, CreateOps(zone, name, now, numbers, walk), deletes, true, budget);
      ok := CreateAll(zone, name, now, numbers, walk);
      if !ok { return; }
      if toDelete != {} {
        ok := DeleteSelected(zone, Listed(snapshot, zone), name, was.recordType, false, toDelete);
      } else {
        NothingToDelete(zone, Listed(snapshot, zone), name, was.recordType);
      }
    }

    /** `apply_deletes` */
    method ApplyDeletes(snapshot: Snapshot, endpoints: seq<Endpoint>) returns (ok: bool)
      modifies this
      ensures var plan := PlanOf(zones, snapshot, DeleteItems(endpoints));
        (store, budget, ok) == Outcome(old(store), plan.ops, plan.complete, old(budget))
    {
      ghost var items := DeleteItems(endpoints);
      for i := 0 to |endpoints|
        invariant Reaches(old(Now()), Now(), snapshot, items, i)
      {
        var e := endpoints[i];
        label before:
        var mapped := MapEndpointToDomain(e.dnsName, zones);
        if mapped.None? {
          Stops(old(Now()), Now(), snapshot, items, i);
          return false;
        }
        var (zone, name) := mapped.value;
        var done := DeleteSelected(zone, Listed(snapshot, zone), name, e.recordType,
                                   e.targets == [], set t | t in e.targets);
        Continues(old(Now()), old@before(Now()), Now(), done, snapshot, items, i);
        if !done { return false; }
      }
      ReachedEnd(old(Now()), Now(), snapshot, items);
      return true;
    }

    method FindZone(e: Endpoint) returns (r: Option<string>)
      ensures r == if HasZone(zones, e) then Some(ZoneOf(zones, e)) else None
    {
      var mapped := MapEndpointToDomain(e.dnsName, zones);
      return if mapped.None? then None else Some(mapped.value.0);
    }

    /** The zones of all update and delete endpoints, if each has one. */
    method FindNeeded(endpoints: seq<Endpoint>) returns (r: Option<set<string>>)
      ensures AllMapped(zones, endpoints) ==> r == Some(NeededZones(zones, endpoints))
      ensures !AllMapped(zones, endpoints) ==> r == None
    {
      var needed: set<string> := {};
      for i := 0 to |endpoints|
        invariant AllMapped(zones, endpoints[..i])
        invariant needed == NeededZones(zones, endpoints[..i])
      {
        var zone := FindZone(endpoints[i]);
        if zone.None? {
          assert endpoints[i] in endpoints;
          return None;
        }
        OneMoreMapped(endpoints, i);
        needed := needed + {zone.value};
      }
      assert endpoints[..|endpoints|] == endpoints;
      return Some(needed);
    }

    /** The first half of `post_records`: find the zones of all update and delete endpoints, then
        list those zones. Nothing is written. */
    method TakeSnapshot(c: Changes) returns (r: Option<Snapshot>)
      ensures AllMapped(zones, NeedingSnapshot(c)) ==> r == Some(SnapshotOf(zones, store, c))
      ensures !AllMapped(zones, NeedingSnapshot(c)) ==> r == None
    {
      var needed := FindNeeded(NeedingSnapshot(c));
      if needed.None? {
        return None;
      }
      return Some(map z | z in needed.value :: Listing(store, z));
    }

    lemma OneMoreMapped(es: seq<Endpoint>, i: nat)
      requires i < |es| && AllMapped(zones, es[..i]) && HasZone(zones, es[i])
      ensures AllMapped(zones, es[..i + 1])
      ensures NeededZones(zones, es[..i + 1]) == NeededZones(zones, es[..i]) + {ZoneOf(zones, es[i])}
    {
      assert es[..i + 1] == es[..i] + [es[i]];
      assert forall x :: x in es[..i + 1] <==> x in es[..i] || x == es[i];
    }

    /** `post_records`. Its outcome is that of the plan computed before the first write. */
    method PostRecords(c: Changes, walks: seq<seq<string>>) returns (ok: bool)
      requires |walks| == Min(|c.updateOld|, |c.updateNew|)
      modifies this
      ensures var plan := PostPlan(zones, old(store), c, walks);
        (store, budget, ok) == Outcome(old(store), plan.ops, plan.complete, old(budget))
    {
      var taken := TakeSnapshot(c);
      if taken.None? {
        return false;
      }
      var snapshot := taken.value;
      ghost var adds, updates, deletes :=
        AddItems(c.create), UpdateItems(c.updateOld, c.updateNew, walks), DeleteItems(c.delete);
      PlanAppend(old(Now()), snapshot, adds + updates, deletes);
      PlanAppend(old(Now()), snapshot, adds, updates);
      ok := ApplyCreates(c.create, snapshot);
      if !ok { return; }
      ok := ApplyUpdates(snapshot, c.updateOld, c.updateNew, walks);
      if !ok { return; }
      ok := ApplyDeletes(snapshot, c.delete);
    }

    // ---------- where a loop over entries stands ----------

    /** The outcome of all entries from the start is that of the remaining ones from here. */
    ghost predicate Reaches(start: (Store, nat), here: (Store, nat), snapshot: Snapshot, items: seq<Item>, i: nat) {
      i <= |items|
      && var all, left := PlanOf(zones, snapshot, items), PlanOf(zones, snapshot, items[i..]);
      Outcome(start.0, all.ops, all.complete, start.1) == Outcome(here.0, left.ops, left.complete, here.1)
    }

    lemma Continues(start: (Store, nat), before: (Store, nat), after: (Store, nat), done: bool,
                    snapshot: Snapshot, items: seq<Item>, i: nat)
      requires i < |items| && Reaches(start, before, snapshot, items, i)
      requires Block(zones, snapshot, items[i]).Some?
      requires (after.0, after.1, done) == Outcome(before.0, Block(zones, snapshot, items[i]).value, true, before.1)
      ensures done ==> Reaches(start, after, snapshot, items, i + 1)
      ensures !done ==> var all := PlanOf(zones, snapshot, items);
        Outcome(start.0, all.ops, all.complete, start.1) == (after.0, after.1, false)
    {
      var rest := PlanOf(zones, snapshot, items[i + 1..]);
      assert items[i..][0] == items[i] && items[i..][1..] == items[i + 1..];
      OutcomeAppend(before.0, Block(zones, snapshot, items[i]).value, rest.ops, rest.complete, before.1);
    }

    lemma Stops(start: (Store, nat), here: (Store, nat), snapshot: Snapshot, items: seq<Item>, i: nat)
      requires i < |items| && Reaches(start, here, snapshot, items, i)
      requires Block(zones, snapshot, items[i]).None?
      ensures var all := PlanOf(zones, snapshot, items);
        Outcome(start.0, all.ops, all.complete, start.1) == (here.0, here.1, false)
    {
      assert items[i..][0] == items[i];
    }

    lemma ReachedEnd(start: (Store, nat), here: (Store, nat), snapshot: Snapshot, items: seq<Item>)
      requires Reaches(start, here, snapshot, items, |items|)
      ensures var all := PlanOf(zones, snapshot, items);
        Outcome(start.0, all.ops, all.complete, start.1) == (here.0, here.1, true)
    {
    }

    lemma {:induction false} NothingToDelete(zone: string, records: seq<DomainRecord>, name: string, recordType: string)
      ensures DeleteOps(zone, records, name, recordType, false, {}) == []
    {
      if records != [] {
        NothingToDelete(zone, records[1..], name, recordType);
      }
    }

    lemma PlanAppend(start: (Store, nat), snapshot: Snapshot, a: seq<Item>, b: seq<Item>)
      ensures var p, q, all := PlanOf(zones, snapshot, a), PlanOf(zones, snapshot, b), PlanOf(zones, snapshot, a + b);
        var (t, left, ok) := Outcome(start.0, p.ops, p.complete, start.1);
        Outcome(start.0, all.ops, all.complete, start.1)
          == if ok then Outcome(t, q.ops, q.complete, left) else (t, left, false)
    {
      PlanConcat(zones, snapshot, a, b);
      var p, q := PlanOf(zones, snapshot, a), PlanOf(zones, snapshot, b);
      if p.complete {
        OutcomeAppend(start.0, p.ops, q.ops, q.complete, start.1);
      } else {
        OutcomeIncomplete(start.0, p.ops, start.1);
      }
    }
  }
}
