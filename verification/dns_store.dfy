/** The record service as abstract state, and runs of create and delete calls on it. */
module DnsStore {
  import opened Wrappers
  import opened DnsNames
  import opened DnsRecords

  /** The records of every zone. Ids are handed out in increasing order and never reused;
      `newTtl` is the TTL the service gives to a record created without one. */
  datatype Store = Store(records: map<string, seq<DomainRecord>>, nextId: int, newTtl: int)

  function Listing(s: Store, zone: string): seq<DomainRecord> {
    if zone in s.records then s.records[zone] else []
  }

  datatype Request = Request(
    recordType: string,
    name: string,
    data: string,
    priority: Option<int>,
    port: Option<int>,
    weight: Option<int>)

  datatype Op = Create(zone: string, request: Request) | Delete(zone: string, id: int)

  function NewRecord(q: Request, id: int, ttl: int): DomainRecord {
    DomainRecord(id, q.recordType, q.name, q.data, q.priority, q.port, q.weight, ttl)
  }

  function Without(records: seq<DomainRecord>, id: int): (r: seq<DomainRecord>)
    ensures forall x :: x in r <==> x in records && x.id != id
  {
    if records == [] then []
    else (if records[0].id == id then [] else [records[0]]) + Without(records[1..], id)
  }

  /** A call the service does not refuse: deleting an absent record is an error. */
  predicate Possible(s: Store, op: Op) {
    match op
    case Create(zone, _) => zone in s.records
    case Delete(zone, id) => exists r :: r in Listing(s, zone) && r.id == id
  }

  function Step(s: Store, op: Op): Store {
    if !Possible(s, op) then s
    else
      match op
      case Create(zone, q) =>
        s.(records := s.records[zone := s.records[zone] + [NewRecord(q, s.nextId, s.newTtl)]],
           nextId := s.nextId + 1)
      case Delete(zone, id) =>
        s.(records := s.records[zone := Without(s.records[zone], id)])
  }

  function Run(s: Store, ops: seq<Op>): Store
    decreases ops
  {
    if ops == [] then s else Run(Step(s, ops[0]), ops[1..])
  }

  /** How a list of calls ends when only `budget` more calls get through: the store reached, the
      budget left, and whether every call succeeded and the plan behind it was complete. */
  function Outcome(s: Store, ops: seq<Op>, complete: bool, budget: nat): (Store, nat, bool)
    decreases ops
  {
    if ops == [] then (s, budget, complete)
    else if budget == 0 || !Possible(s, ops[0]) then (s, budget, false)
    else Outcome(Step(s, ops[0]), ops[1..], complete, budget - 1)
  }

  /** A cut-short list of calls is a run of one of its prefixes. */
  lemma {:induction false} OutcomeIsPrefix(s: Store, ops: seq<Op>, complete: bool, budget: nat) returns (k: nat)
    ensures k <= |ops| && Outcome(s, ops, complete, budget).0 == Run(s, ops[..k])
    ensures Outcome(s, ops, complete, budget).2 ==> k == |ops| && complete
    ensures k <= budget && (k < |ops| ==> k == budget || !Possible(Run(s, ops[..k]), ops[k]))
    decreases ops
  {
    if ops == [] || budget == 0 || !Possible(s, ops[0]) {
      k := 0;
    } else {
      var j := OutcomeIsPrefix(Step(s, ops[0]), ops[1..], complete, budget - 1);
      k := j + 1;
      assert ops[..k][1..] == ops[1..][..j];
    }
  }

  lemma {:induction false} OutcomeAppend(s: Store, a: seq<Op>, b: seq<Op>, complete: bool, budget: nat)
    ensures var (t, left, ok) := Outcome(s, a, true, budget);
      Outcome(s, a + b, complete, budget) == if ok then Outcome(t, b, complete, left) else (t, left, false)
    decreases a
  {
    if a == [] {
      assert a + b == b;
    } else {
      assert (a + b)[1..] == a[1..] + b;
      if budget > 0 && Possible(s, a[0]) {
        OutcomeAppend(Step(s, a[0]), a[1..], b, complete, budget - 1);
      }
    }
  }

  lemma {:induction false} OutcomeIncomplete(s: Store, ops: seq<Op>, budget: nat)
    ensures var (t, left, ok) := Outcome(s, ops, true, budget);
      Outcome(s, ops, false, budget) == (t, left, false)
    decreases ops
  {
    if ops != [] && budget > 0 && Possible(s, ops[0]) {
      OutcomeIncomplete(Step(s, ops[0]), ops[1..], budget - 1);
    }
  }

  // ---------- which records a run leaves ----------

  predicate In(s: Store, zone: string, r: DomainRecord) {
    r in Listing(s, zone)
  }

  ghost predicate DistinctIds(records: seq<DomainRecord>) {
    forall i, j :: 0 <= i < j < |records| ==> records[i].id != records[j].id
  }

  /** Ids are distinct within a zone and below the next one to hand out. */
  ghost predicate IdsOk(s: Store) {
    && (forall z, r :: In(s, z, r) ==> r.id < s.nextId)
    && (forall z :: z in s.records ==> DistinctIds(s.records[z]))
  }

  lemma SameId(s: Store, z: string, a: DomainRecord, b: DomainRecord)
    requires IdsOk(s) && In(s, z, a) && In(s, z, b) && a.id == b.id
    ensures a == b
  {
    var i :| 0 <= i < |s.records[z]| && s.records[z][i] == a;
    var j :| 0 <= j < |s.records[z]| && s.records[z][j] == b;
  }

  lemma {:induction false} WithoutKeepsIds(records: seq<DomainRecord>, id: int)
    requires DistinctIds(records)
    ensures DistinctIds(Without(records, id))
  {
    if records != [] {
      var rest := records[1..];
      assert forall i :: 0 <= i < |rest| ==> rest[i] == records[i + 1];
      WithoutKeepsIds(rest, id);
      var tail := Without(rest, id);
      forall j | 0 <= j < |tail| ensures tail[j].id != records[0].id {
        assert tail[j] in rest;
        var k :| 0 <= k < |rest| && rest[k] == tail[j];
        assert records[k + 1] == rest[k];
      }
      var r := Without(records, id);
      if records[0].id == id {
        assert r == tail;
      } else {
        assert r == [records[0]] + tail;
      }
    }
  }

  lemma StepIds(s: Store, op: Op)
    requires IdsOk(s)
    ensures IdsOk(Step(s, op)) && Step(s, op).records.Keys == s.records.Keys
    ensures s.nextId <= Step(s, op).nextId && Step(s, op).newTtl == s.newTtl
  {
    var t := Step(s, op);
    forall z, r | In(t, z, r) ensures r.id < t.nextId {
      assert In(s, z, r) || (op.Create? && z == op.zone && r == NewRecord(op.request, s.nextId, s.newTtl));
    }
    if op.Delete? && op.zone in s.records {
      WithoutKeepsIds(s.records[op.zone], op.id);
      forall z | z in t.records ensures DistinctIds(t.records[z]) {
        assert z == op.zone || t.records[z] == s.records[z];
      }
    } else if op.Create? && op.zone in s.records {
      var records := s.records[op.zone];
      forall i | 0 <= i < |records| ensures records[i].id < s.nextId {
        assert In(s, op.zone, records[i]);
      }
    }
  }

  lemma {:induction false} RunIds(s: Store, ops: seq<Op>)
    requires IdsOk(s)
    ensures IdsOk(Run(s, ops)) && Run(s, ops).records.Keys == s.records.Keys
    ensures s.nextId <= Run(s, ops).nextId && Run(s, ops).newTtl == s.newTtl
    decreases ops
  {
    if ops != [] {
      StepIds(s, ops[0]);
      RunIds(Step(s, ops[0]), ops[1..]);
    }
  }

  ghost predicate MadeBy(r: DomainRecord, zone: string, op: Op) {
    op.Create? && op.zone == zone
    && r.recordType == op.request.recordType && r.name == op.request.name && r.data == op.request.data
  }

  /** Every record after a run was there before or was created by one of its calls. */
  lemma {:induction false} RecordsComeFrom(s: Store, ops: seq<Op>, z: string, r: DomainRecord)
    requires In(Run(s, ops), z, r)
    ensures In(s, z, r) || exists op :: op in ops && MadeBy(r, z, op)
    decreases ops
  {
    if ops != [] {
      RecordsComeFrom(Step(s, ops[0]), ops[1..], z, r);
      if In(Step(s, ops[0]), z, r) && !In(s, z, r) {
        assert MadeBy(r, z, ops[0]);
      }
    }
  }

  lemma {:induction false} UndeletedStays(s: Store, ops: seq<Op>, z: string, r: DomainRecord)
    requires In(s, z, r) && Delete(z, r.id) !in ops
    ensures In(Run(s, ops), z, r)
    decreases ops
  {
    if ops != [] {
      assert ops[0] in ops;
      assert In(Step(s, ops[0]), z, r);
      UndeletedStays(Step(s, ops[0]), ops[1..], z, r);
    }
  }

  ghost predicate Gone(s: Store, z: string, id: int) {
    id < s.nextId && forall r :: In(s, z, r) ==> r.id != id
  }

  lemma {:induction false} GoneStays(s: Store, ops: seq<Op>, z: string, id: int)
    requires Gone(s, z, id)
    ensures Gone(Run(s, ops), z, id)
    decreases ops
  {
    if ops != [] {
      assert Gone(Step(s, ops[0]), z, id);
      GoneStays(Step(s, ops[0]), ops[1..], z, id);
    }
  }

  lemma {:induction false} DeletedIsGone(s: Store, ops: seq<Op>, z: string, id: int)
    requires Delete(z, id) in ops && id < s.nextId
    ensures Gone(Run(s, ops), z, id)
    decreases ops
  {
    var next := Step(s, ops[0]);
    if ops[0] == Delete(z, id) {
      assert Gone(next, z, id) by {
        if !Possible(s, ops[0]) {
          forall r | In(s, z, r) ensures r.id != id {}
        }
      }
      GoneStays(next, ops[1..], z, id);
    } else {
      assert Delete(z, id) in ops[1..];
      DeletedIsGone(next, ops[1..], z, id);
    }
  }

  lemma {:induction false} CreatedStays(s: Store, ops: seq<Op>, op: Op)
    requires op in ops && op.Create? && op.zone in s.records
    requires forall z, id :: Delete(z, id) in ops ==> id < s.nextId
    ensures exists r :: In(Run(s, ops), op.zone, r) && MadeBy(r, op.zone, op)
    decreases ops
  {
    var next := Step(s, ops[0]);
    assert s.nextId <= next.nextId;
    if ops[0] == op {
      var r := NewRecord(op.request, s.nextId, s.newTtl);
      assert next.records[op.zone] == s.records[op.zone] + [r];
      assert In(next, op.zone, r) && MadeBy(r, op.zone, op);
      assert Delete(op.zone, r.id) !in ops;
      UndeletedStays(next, ops[1..], op.zone, r);
    } else {
      CreatedStays(next, ops[1..], op);
    }
  }

  // ---------- the abstract view ----------

  /** The data stored under a key: the service seen as a map from (full name, type) to targets. */
  ghost function Targets(s: Store, key: Key): set<string> {
    set z, r | z in s.records && r in s.records[z] && KeyOf(z, r) == key :: r.data
  }

  function OpKey(op: Op): Key
    requires op.Create?
  {
    (Join(op.zone, op.request.name), op.request.recordType)
  }

  ghost predicate StoredUndeleted(s: Store, ops: seq<Op>, key: Key, data: string) {
    exists z, r :: In(s, z, r) && KeyOf(z, r) == key && r.data == data && Delete(z, r.id) !in ops
  }

  ghost predicate CreatedData(ops: seq<Op>, key: Key, data: string) {
    exists op :: op in ops && op.Create? && OpKey(op) == key && op.request.data == data
  }

  lemma TargetsComeFrom(s: Store, ops: seq<Op>, key: Key, data: string)
    requires IdsOk(s) && forall z, id :: Delete(z, id) in ops ==> id < s.nextId
    requires data in Targets(Run(s, ops), key)
    ensures StoredUndeleted(s, ops, key, data) || CreatedData(ops, key, data)
  {
    var t := Run(s, ops);
    var z, r :| z in t.records && r in t.records[z] && KeyOf(z, r) == key && r.data == data;
    assert In(t, z, r);
    RecordsComeFrom(s, ops, z, r);
    if In(s, z, r) {
      if Delete(z, r.id) in ops {
        DeletedIsGone(s, ops, z, r.id);
        assert false;
      }
    } else {
      var op :| op in ops && MadeBy(r, z, op);
      assert OpKey(op) == key;
    }
  }

  /** After a run that deletes only old ids, a key holds what was stored and not deleted, and
      what was created. */
  lemma RunTargets(s: Store, ops: seq<Op>, key: Key, data: string)
    requires IdsOk(s)
    requires forall z, id :: Delete(z, id) in ops ==> id < s.nextId
    requires forall op :: op in ops && op.Create? ==> op.zone in s.records
    ensures data in Targets(Run(s, ops), key)
      <==> (StoredUndeleted(s, ops, key, data) || CreatedData(ops, key, data))
  {
    var t := Run(s, ops);
    if data in Targets(t, key) {
      TargetsComeFrom(s, ops, key, data);
    }
    if StoredUndeleted(s, ops, key, data) {
      var z, r :| In(s, z, r) && KeyOf(z, r) == key && r.data == data && Delete(z, r.id) !in ops;
      UndeletedStays(s, ops, z, r);
      TargetsStored(t, key, data);
    }
    if CreatedData(ops, key, data) {
      var op :| op in ops && op.Create? && OpKey(op) == key && op.request.data == data;
      CreatedStays(s, ops, op);
      var r :| In(t, op.zone, r) && MadeBy(r, op.zone, op);
      TargetsStored(t, key, data);
    }
  }

  lemma TargetsStored(s: Store, key: Key, data: string)
    ensures data in Targets(s, key)
      <==> (exists z, r :: In(s, z, r) && KeyOf(z, r) == key && r.data == data)
  {
    if z, r :| In(s, z, r) && KeyOf(z, r) == key && r.data == data {
      assert z in s.records && r in s.records[z];
    }
    if data in Targets(s, key) {
      var z, r :| z in s.records && r in s.records[z] && KeyOf(z, r) == key && r.data == data;
      assert In(s, z, r);
    }
  }
}
